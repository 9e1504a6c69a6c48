/**
Which requested and offered objects a fetch may use: a breadth-first walk from the
published refs that stops as soon as every object it was asked about is found.
*/
module FetchPolicy {
  import opened Wrappers

  type Hash = nat

  datatype Mode = Dir | File | Submodule

  datatype TreeEntry = TreeEntry(hash: Hash, mode: Mode)

  datatype GitObject =
    | Commit(parents: seq<Hash>, tree: Hash)
    | Tag(target: Hash)
    | Tree(entries: seq<TreeEntry>)
    | Blob

  type Objects = map<Hash, GitObject>

  // ---- Reachability ----

  /** Where the walk goes from an object; trees are entered only in a full walk. */
  function Next(o: GitObject, full: bool): set<Hash> {
    match o
    case Commit(parents, tree) => (set p | p in parents) + (if full then {tree} else {})
    case Tag(target) => {target}
    case Tree(entries) => if full then set e | e in entries && e.mode.Dir? :: e.hash else {}
    case Blob => {}
  }

  /** The part of it that belongs to the same generation of commits. */
  function Now(o: GitObject, full: bool): set<Hash> {
    match o
    case Commit(_, tree) => if full then {tree} else {}
    case Tag(_) => Next(o, full)
    case Tree(_) => Next(o, full)
    case Blob => {}
  }

  /** The rest: parents that were not seen yet wait for the next generation. */
  function Later(o: GitObject, seen: set<Hash>): set<Hash> {
    if o.Commit? then set p | p in o.parents && p !in seen else {}
  }

  /** What a tree shows without being entered. */
  function Listed(o: GitObject): set<Hash> {
    if o.Tree? then set e | e in o.entries && !e.mode.Submodule? :: e.hash else {}
  }

  /** A set that contains the tips and everything the walk reaches from its members. */
  ghost predicate Closed(objects: Objects, tips: set<Hash>, full: bool, s: set<Hash>) {
    tips <= s && forall x | x in s && x in objects :: Next(objects[x], full) <= s
  }

  /** `id` can be seen from the members of `s`. */
  ghost predicate Shows(objects: Objects, full: bool, s: set<Hash>, id: Hash) {
    || (id in s && id in objects && (full || objects[id].Commit?))
    || (full && exists x :: x in s && x in objects && id in Listed(objects[x]))
  }

  /** A tip, or an object that everything reachable from the tips shows. */
  ghost predicate Visible(objects: Objects, tips: set<Hash>, full: bool, id: Hash) {
    id in tips || forall s | Closed(objects, tips, full, s) :: Shows(objects, full, s, id)
  }

  /** The walk cannot avoid `id`. */
  ghost predicate Reached(objects: Objects, tips: set<Hash>, full: bool, id: Hash) {
    forall s | Closed(objects, tips, full, s) :: id in s
  }

  /** A set that contains the tips and everything of their generation. */
  ghost predicate Generation(objects: Objects, tips: set<Hash>, full: bool, s: set<Hash>) {
    tips <= s && forall x | x in s && x in objects :: Now(objects[x], full) <= s
  }

  /** The generation of the tips shows everything wanted. */
  ghost predicate Recent(objects: Objects, tips: set<Hash>, full: bool, wanted: set<Hash>) {
    forall s, id | Generation(objects, tips, full, s) && id in wanted :: Shows(objects, full, s, id)
  }

  /**
  Some object on the way is missing or unreadable: one of the generation of the tips, if
  that generation shows everything wanted.
  */
  ghost predicate Hole(objects: Objects, broken: set<Hash>, tips: set<Hash>, full: bool, wanted: set<Hash>) {
    exists id ::
      && (id in broken || id !in objects) && Reached(objects, tips, full, id)
      && (Recent(objects, tips, full, wanted) ==> forall s | Generation(objects, tips, full, s) :: id in s)
  }

  /** Everything that is mentioned anywhere. */
  ghost function Universe(objects: Objects, tips: set<Hash>, full: bool): set<Hash> {
    tips + set x, y | x in objects && y in Next(objects[x], full) :: y
  }

  lemma {:induction false} UniverseIsClosed(objects: Objects, tips: set<Hash>, full: bool)
    ensures Closed(objects, tips, full, Universe(objects, tips, full))
  {
  }

  /** Without a full walk only tips and commits are visible. */
  lemma {:induction false} OnlyCommits(objects: Objects, tips: set<Hash>, id: Hash)
    requires Visible(objects, tips, false, id)
    ensures id in tips || (id in objects && objects[id].Commit?)
  {
    UniverseIsClosed(objects, tips, false);
    assert id in tips || Shows(objects, false, Universe(objects, tips, false), id);
  }

  /** The tips and all that stored objects mention are stored. */
  ghost predicate Intact(objects: Objects, tips: set<Hash>) {
    && tips <= objects.Keys
    && forall x | x in objects :: Listed(objects[x]) <= objects.Keys && Next(objects[x], true) <= objects.Keys
  }

  lemma {:induction false} IntactHasNoHole(objects: Objects, tips: set<Hash>, full: bool, wanted: set<Hash>)
    requires Intact(objects, tips)
    ensures !Hole(objects, {}, tips, full, wanted)
  {
    forall x | x in objects ensures Next(objects[x], full) <= objects.Keys {
      assert Next(objects[x], full) <= Next(objects[x], true);
    }
    assert Closed(objects, tips, full, objects.Keys);
  }

  /** In a store that holds all it mentions, everything visible is there. */
  lemma {:induction false} VisibleExists(objects: Objects, tips: set<Hash>, full: bool, id: Hash)
    requires Visible(objects, tips, full, id) && Intact(objects, tips)
    ensures id in objects
  {
    UniverseIsClosed(objects, tips, full);
    assert id in tips || Shows(objects, full, Universe(objects, tips, full), id);
  }

  // ---- What has to be found ----

  /** A want that is not a tip and not a commit makes the walk enter trees. */
  predicate NeedsFullWalk(objects: Objects, tips: set<Hash>, wants: seq<Hash>) {
    exists w :: w in wants && w !in tips && w in objects && !objects[w].Commit?
  }

  ghost predicate MustFind(objects: Objects, tips: set<Hash>, full: bool, wants: seq<Hash>, haves: seq<Hash>, id: Hash) {
    && id !in tips && id in objects
    && (id in wants || (id in haves && (full || objects[id].Commit?)))
  }

  /** The classification reads the wants and the haves that are not tips. */
  ghost predicate Unreadable(broken: set<Hash>, tips: set<Hash>, wants: seq<Hash>, haves: seq<Hash>) {
    exists id :: id in broken && id !in tips && (id in wants || id in haves)
  }

  /** `broken` holds the objects whose reads fail for another reason than absence. */
  method ReadObject(objects: Objects, broken: set<Hash>, id: Hash) returns (r: Result<Option<GitObject>>)
    ensures r.Err? <==> id in broken
    ensures r.Ok? ==> r.value == if id in objects then Some(objects[id]) else None
    ensures r.Err? ==> r.error == StoreFailure
  {
    if id in broken {
      return Err(StoreFailure);
    }
    r := Ok(if id in objects then Some(objects[id]) else None);
  }

  /** Wants first, so that the kind of walk is known before the haves are looked at. */
  method Classify(objects: Objects, broken: set<Hash>, tips: set<Hash>, wants: seq<Hash>, haves: seq<Hash>)
    returns (r: Result<(bool, set<Hash>)>)
    ensures r.Ok? ==> r.value.0 == NeedsFullWalk(objects, tips, wants)
    ensures r.Ok? ==> forall id :: id in r.value.1 <==> MustFind(objects, tips, r.value.0, wants, haves, id)
    ensures r.Err? <==> Unreadable(broken, tips, wants, haves)
    ensures r.Err? ==> r.error == StoreFailure
  {
    var full, needed := false, {};
    var i := 0;
    while i < |wants|
      invariant i <= |wants|
      invariant full <==> exists w :: w in wants[..i] && w !in tips && w in objects && !objects[w].Commit?
      invariant forall id :: id in needed <==> id !in tips && id in objects && id in wants[..i]
      invariant !Unreadable(broken, tips, wants[..i], [])
    {
      var id := wants[i];
      assert wants[..i + 1] == wants[..i] + [id];
      i := i + 1;
      if id !in tips {
        var o := ReadObject(objects, broken, id);
        if o.Err? {
          return Err(o.error);
        }
        if o.value.Some? {
          if !o.value.value.Commit? {
            full := true;
          }
          needed := needed + {id};
        }
      }
    }
    assert wants[..i] == wants;
    i := 0;
    while i < |haves|
      invariant i <= |haves|
      invariant forall id :: id in needed <==> MustFind(objects, tips, full, wants, haves[..i], id)
      invariant !Unreadable(broken, tips, wants, haves[..i])
    {
      var id := haves[i];
      assert haves[..i + 1] == haves[..i] + [id];
      i := i + 1;
      if id !in tips {
        var o := ReadObject(objects, broken, id);
        if o.Err? {
          return Err(o.error);
        }
        if o.value.Some? && (full || o.value.value.Commit?) {
          needed := needed + {id};
        }
      }
    }
    assert haves[..i] == haves;
    r := Ok((full, needed));
  }

  // ---- The walk ----

  /** The variables of the walk. */
  datatype Walk = Walk(
    visible: set<Hash>, needed: set<Hash>, seen: set<Hash>, queue: seq<Hash>, parents: set<Hash>)

  function Members(queue: seq<Hash>): set<Hash> { set x | x in queue }

  ghost predicate NoRepeats(queue: seq<Hash>) {
    forall i, j | 0 <= i < j < |queue| :: queue[i] != queue[j]
  }

  /** The queue holds exactly what was seen and not yet read. */
  ghost predicate Queued(w: Walk, done: set<Hash>) {
    w.seen == done + Members(w.queue) && done !! Members(w.queue) && NoRepeats(w.queue)
  }

  /** Nothing was seen that some closed set lacks, and nothing that was read leads elsewhere. */
  ghost predicate Tight(objects: Objects, tips: set<Hash>, full: bool, found: set<Hash>, done: set<Hash>) {
    && tips <= found && done <= objects.Keys
    && (forall s | Closed(objects, tips, full, s) :: found <= s)
    && (forall x | x in done :: Next(objects[x], full) <= found)
  }

  /** What is visible is what the objects read so far show. */
  ghost predicate Marked(objects: Objects, tips: set<Hash>, full: bool, wanted: set<Hash>, w: Walk, done: set<Hash>) {
    && (forall id :: id in w.visible <==> id in tips || Shows(objects, full, done, id))
    && w.needed == wanted - w.visible
  }

  ghost predicate Walking(objects: Objects, tips: set<Hash>, full: bool, wanted: set<Hash>, w: Walk, done: set<Hash>) {
    && Queued(w, done)
    && Tight(objects, tips, full, w.seen + w.parents, done)
    && Marked(objects, tips, full, wanted, w, done)
  }

  function Enqueue(w: Walk, id: Hash): Walk {
    if id in w.seen then w else w.(seen := w.seen + {id}, queue := w.queue + [id])
  }

  lemma {:induction false} EnqueueKeeps(w: Walk, id: Hash, done: set<Hash>)
    requires Queued(w, done)
    ensures Queued(Enqueue(w, id), done) && Enqueue(w, id).seen == w.seen + {id}
  {
    if id !in w.seen {
      assert Members(w.queue + [id]) == Members(w.queue) + {id};
    }
  }

  method EnqueueAll(w: Walk, ids: seq<Hash>, ghost done: set<Hash>) returns (r: Walk)
    requires Queued(w, done)
    ensures Queued(r, done) && r == w.(seen := w.seen + Members(ids), queue := r.queue)
  {
    r := w;
    var i := 0;
    while i < |ids|
      invariant i <= |ids| && Queued(r, done) && r == w.(seen := w.seen + Members(ids[..i]), queue := r.queue)
    {
      EnqueueKeeps(r, ids[i], done);
      assert ids[..i + 1] == ids[..i] + [ids[i]];
      r := Enqueue(r, ids[i]);
      i := i + 1;
    }
    assert ids[..i] == ids;
  }

  /** The next generation of commits, in any order. */
  method EnqueueParents(w: Walk, ghost done: set<Hash>) returns (r: Walk)
    requires Queued(w, done)
    ensures Queued(r, done) && r == w.(seen := w.seen + w.parents, queue := r.queue, parents := {})
    ensures w.parents <= w.seen ==> r.queue == w.queue
  {
    r := w;
    while r.parents != {}
      invariant Queued(r, done) && r.parents <= w.parents
      invariant r == w.(seen := w.seen + (w.parents - r.parents), queue := r.queue, parents := r.parents)
      invariant w.parents <= w.seen ==> r.queue == w.queue
      decreases r.parents
    {
      var p :| p in r.parents;
      EnqueueKeeps(r, p, done);
      r := Enqueue(r, p).(parents := r.parents - {p});
    }
  }

  /** Marks what an object shows. */
  function Mark(w: Walk, ids: set<Hash>): Walk {
    w.(visible := w.visible + ids, needed := w.needed - ids)
  }

  lemma {:induction false} PopKeeps(w: Walk, done: set<Hash>)
    requires Queued(w, done) && w.queue != []
    ensures Queued(w.(queue := w.queue[1..]), done + {w.queue[0]}) && w.queue[0] in w.seen && w.queue[0] !in done
  {
    assert Members(w.queue) == Members(w.queue[1..]) + {w.queue[0]};
  }

  method EnterTree(w: Walk, entries: seq<TreeEntry>, ghost done: set<Hash>) returns (r: Walk)
    requires Queued(w, done)
    ensures Queued(r, done) && r.parents == w.parents
    ensures r.seen == w.seen + Next(Tree(entries), true)
    ensures r.visible == w.visible + Listed(Tree(entries)) && r.needed == w.needed - Listed(Tree(entries))
  {
    r := w;
    var i := 0;
    while i < |entries|
      invariant i <= |entries| && Queued(r, done) && r.parents == w.parents
      invariant r.seen == w.seen + Next(Tree(entries[..i]), true)
      invariant r.visible == w.visible + Listed(Tree(entries[..i])) && r.needed == w.needed - Listed(Tree(entries[..i]))
    {
      var entry := entries[i];
      OneMoreEntry(entries, i);
      i := i + 1;
      if entry.mode != Submodule {
        r := Mark(r, {entry.hash});
        if entry.mode == Dir {
          EnqueueKeeps(r, entry.hash, done);
          r := Enqueue(r, entry.hash);
        }
      }
    }
    assert entries[..i] == entries;
  }

  lemma {:induction false} OneMoreEntry(entries: seq<TreeEntry>, i: nat)
    requires i < |entries|
    ensures Next(Tree(entries[..i + 1]), true) ==
            Next(Tree(entries[..i]), true) + if entries[i].mode.Dir? then {entries[i].hash} else {}
    ensures Listed(Tree(entries[..i + 1])) ==
            Listed(Tree(entries[..i])) + if entries[i].mode.Submodule? then {} else {entries[i].hash}
  {
    assert entries[..i + 1] == entries[..i] + [entries[i]];
  }

  /** Follows an object that has just been read, leaving parents to the next generation. */
  method Expand(w: Walk, o: GitObject, full: bool, ghost done: set<Hash>) returns (r: Walk)
    requires Queued(w, done)
    ensures Queued(r, done) && r.seen == w.seen + Now(o, full) && r.parents == w.parents + Later(o, w.seen)
    ensures r.visible == w.visible + Shown(o, full) && r.needed == w.needed - Shown(o, full)
  {
    r := w;
    match o {
      case Commit(parents, tree) =>
        r := r.(parents := r.parents + set p | p in parents && p !in w.seen);
        if full {
          EnqueueKeeps(r, tree, done);
          r := Enqueue(r, tree);
        }
      case Tag(target) =>
        EnqueueKeeps(r, target, done);
        r := Enqueue(r, target);
      case Tree(entries) =>
        if full {
          r := EnterTree(r, entries, done);
        }
      case Blob =>
    }
  }

  function Shown(o: GitObject, full: bool): set<Hash> { if full then Listed(o) else {} }

  /** Reading one more object shows it and what it lists. */
  lemma {:induction false} ReadOneMore(
    objects: Objects, tips: set<Hash>, full: bool, wanted: set<Hash>, w: Walk, w': Walk, done: set<Hash>, id: Hash)
    requires Marked(objects, tips, full, wanted, w, done) && id in objects
    requires w'.visible == w.visible + Self(id, objects[id], full) + Shown(objects[id], full)
    requires w'.needed == w.needed - Self(id, objects[id], full) - Shown(objects[id], full)
    ensures Marked(objects, tips, full, wanted, w', done + {id})
  {
    forall x ensures x in w'.visible <==> x in tips || Shows(objects, full, done + {id}, x) {
      assert x in w.visible <==> x in tips || Shows(objects, full, done, x);
      if full && x in Listed(objects[id]) { assert id in done + {id}; }
    }
  }

  /** What an object shows of itself. */
  function Self(id: Hash, o: GitObject, full: bool): set<Hash> { if full || o.Commit? then {id} else {} }

  lemma {:induction false} FindOneMore(
    objects: Objects, tips: set<Hash>, full: bool, found: set<Hash>, done: set<Hash>, id: Hash)
    requires Tight(objects, tips, full, found, done) && id in found && id in objects
    ensures Tight(objects, tips, full, found + Next(objects[id], full), done + {id})
  {
    forall s | Closed(objects, tips, full, s) ensures found + Next(objects[id], full) <= s {
      assert found <= s && id in s;
    }
  }

  /** Whatever the walk has marked is visible. */
  lemma {:induction false} MarksAreVisible(
    objects: Objects, tips: set<Hash>, full: bool, wanted: set<Hash>, w: Walk, done: set<Hash>, id: Hash)
    requires Walking(objects, tips, full, wanted, w, done) && id in w.visible
    ensures Visible(objects, tips, full, id)
  {
    if id !in tips {
      forall s | Closed(objects, tips, full, s) ensures Shows(objects, full, s, id) {
        assert w.seen + w.parents <= s && done <= w.seen;
        assert Shows(objects, full, done, id);
      }
    }
  }

  /** The object at hand is visible too, if it counts. */
  lemma {:induction false} SelfIsVisible(
    objects: Objects, tips: set<Hash>, full: bool, found: set<Hash>, done: set<Hash>, id: Hash)
    requires Tight(objects, tips, full, found, done) && id in found && id in objects && (full || objects[id].Commit?)
    ensures Visible(objects, tips, full, id)
  {
    forall s | Closed(objects, tips, full, s) ensures Shows(objects, full, s, id) {
      assert found <= s;
    }
  }

  /** A walk that ran out of objects has found everything visible. */
  lemma {:induction false} WalkIsComplete(
    objects: Objects, tips: set<Hash>, full: bool, wanted: set<Hash>, w: Walk, done: set<Hash>, id: Hash)
    requires Walking(objects, tips, full, wanted, w, done) && w.queue == [] && w.parents == {}
    requires Visible(objects, tips, full, id)
    ensures id in w.visible
  {
    assert w.seen + w.parents == done;
    assert Closed(objects, tips, full, done);
  }

  /** Sound always, and complete for what was asked or altogether. */
  ghost predicate Answers(objects: Objects, tips: set<Hash>, full: bool, wanted: set<Hash>, visible: set<Hash>) {
    && tips <= visible
    && (forall id | id in visible :: Visible(objects, tips, full, id))
    && (wanted <= visible || forall id :: Visible(objects, tips, full, id) ==> id in visible)
  }

  lemma {:induction false} StartWalking(objects: Objects, tips: set<Hash>, full: bool, wanted: set<Hash>, w: Walk)
    requires w == Walk(tips, wanted, tips, w.queue, {}) && Queued(w, {}) && wanted !! tips
    ensures Walking(objects, tips, full, wanted, w, {}) && Staged(objects, tips, full, wanted, w, {})
  {
    assert forall id :: !Shows(objects, full, {}, id);
  }

  lemma {:induction false} StepBegins(
    objects: Objects, tips: set<Hash>, full: bool, wanted: set<Hash>, w: Walk, done: set<Hash>, id: Hash)
    requires Walking(objects, tips, full, wanted, w, done) && w.queue != [] && id == w.queue[0] && id in objects
    ensures Queued(w.(queue := w.queue[1..]), done + {id})
    ensures id in w.seen && id !in done && id in Universe(objects, tips, full)
    ensures full || objects[id].Commit? ==> Visible(objects, tips, full, id)
  {
    hide Tight, Marked, Universe;
    PopKeeps(w, done);
    UniverseIsClosed(objects, tips, full);
    assert w.seen + w.parents <= Universe(objects, tips, full) by {
      FoundIsClosed(objects, tips, full, w.seen + w.parents, done, Universe(objects, tips, full));
    }
    if full || objects[id].Commit? { SelfIsVisible(objects, tips, full, w.seen + w.parents, done, id); }
  }

  lemma {:induction false} FoundIsClosed(
    objects: Objects, tips: set<Hash>, full: bool, found: set<Hash>, done: set<Hash>, s: set<Hash>)
    requires Tight(objects, tips, full, found, done) && Closed(objects, tips, full, s)
    ensures found <= s
  {
  }

  lemma {:induction false} StepEnds(
    objects: Objects, tips: set<Hash>, full: bool, wanted: set<Hash>, w: Walk, w': Walk, done: set<Hash>, id: Hash)
    requires Walking(objects, tips, full, wanted, w, done) && id in w.seen && id in objects && Queued(w', done + {id})
    requires w'.seen + w'.parents == w.seen + w.parents + Next(objects[id], full)
    requires w'.visible == w.visible + Self(id, objects[id], full) + Shown(objects[id], full)
    requires w'.needed == w.needed - Self(id, objects[id], full) - Shown(objects[id], full)
    ensures Walking(objects, tips, full, wanted, w', done + {id})
  {
    hide Tight, Marked, Self, Shown, Next;
    FindOneMore(objects, tips, full, w.seen + w.parents, done, id);
    ReadOneMore(objects, tips, full, wanted, w, w', done, id);
  }

  lemma {:induction false} AnswersAtEnd(
    objects: Objects, tips: set<Hash>, full: bool, wanted: set<Hash>, w: Walk, done: set<Hash>)
    requires Walking(objects, tips, full, wanted, w, done)
    requires w.needed == {} || (w.queue == [] && w.parents == {})
    ensures Answers(objects, tips, full, wanted, w.visible)
  {
    hide Visible;
    forall id | id in w.visible ensures Visible(objects, tips, full, id) {
      MarksAreVisible(objects, tips, full, wanted, w, done, id);
    }
    if w.needed != {} {
      forall id | Visible(objects, tips, full, id) ensures id in w.visible {
        WalkIsComplete(objects, tips, full, wanted, w, done, id);
      }
    } else {
      assert forall id | id in wanted && id !in w.visible :: id in w.needed;
    }
  }

  /** The queue stays in the generation of the tips as long as nothing else is needed. */
  ghost predicate Staged(objects: Objects, tips: set<Hash>, full: bool, wanted: set<Hash>, w: Walk, done: set<Hash>) {
    && tips <= w.seen
    && (forall x | x in done && x in objects :: Now(objects[x], full) <= w.seen)
    && (w.needed != {} && Recent(objects, tips, full, wanted) ==>
          forall s | Generation(objects, tips, full, s) :: w.seen <= s)
  }

  lemma {:induction false} StageGrows(
    objects: Objects, tips: set<Hash>, full: bool, wanted: set<Hash>, w: Walk, w': Walk, done: set<Hash>, id: Hash)
    requires Staged(objects, tips, full, wanted, w, done) && id in w.seen && id in objects
    requires w'.seen == w.seen + Now(objects[id], full) && w'.needed <= w.needed
    ensures Staged(objects, tips, full, wanted, w', done + {id})
  {
    if w'.needed != {} && Recent(objects, tips, full, wanted) {
      forall s | Generation(objects, tips, full, s) ensures w'.seen <= s {
        assert w.seen <= s;
      }
    }
  }

  /** When the queue is empty the whole generation of the tips has been read. */
  lemma {:induction false} StageReadAll(
    objects: Objects, tips: set<Hash>, full: bool, wanted: set<Hash>, w: Walk, done: set<Hash>)
    requires Walking(objects, tips, full, wanted, w, done) && Staged(objects, tips, full, wanted, w, done)
    requires w.queue == [] && Recent(objects, tips, full, wanted)
    ensures w.needed == {}
  {
    assert w.seen == done;
    assert Generation(objects, tips, full, done);
    forall id | id in wanted ensures id in w.visible {
      assert Shows(objects, full, done, id);
    }
  }

  lemma {:induction false} NextStage(
    objects: Objects, tips: set<Hash>, full: bool, wanted: set<Hash>, w: Walk, w': Walk, done: set<Hash>)
    requires Walking(objects, tips, full, wanted, w, done) && Staged(objects, tips, full, wanted, w, done)
    requires w.queue == [] && Queued(w', done)
    requires w' == w.(seen := w.seen + w.parents, queue := w'.queue, parents := {})
    ensures Walking(objects, tips, full, wanted, w', done) && Staged(objects, tips, full, wanted, w', done)
  {
    hide Queued;
    assert w'.seen + w'.parents == w.seen + w.parents;
    if Recent(objects, tips, full, wanted) { StageReadAll(objects, tips, full, wanted, w, done); }
  }

  /** The last wanted object shows itself. */
  lemma {:induction false} FoundLast(
    objects: Objects, tips: set<Hash>, full: bool, wanted: set<Hash>, w: Walk, w': Walk, done: set<Hash>, id: Hash)
    requires Walking(objects, tips, full, wanted, w, done)
    requires w'.visible <= w.visible + {id} && w.visible <= w'.visible && w.needed <= w'.visible
    requires id in w'.visible ==> Visible(objects, tips, full, id)
    ensures Answers(objects, tips, full, wanted, w'.visible)
  {
    hide Visible;
    forall x | x in w'.visible ensures Visible(objects, tips, full, x) {
      if x in w.visible { MarksAreVisible(objects, tips, full, wanted, w, done, x); }
    }
    assert forall x | x in wanted :: x in w.visible || x in w.needed;
  }

  /** Walks until everything wanted is visible or nothing is left, one generation of commits after the other. */
  method RunWalk(objects: Objects, broken: set<Hash>, tips: seq<Hash>, full: bool, wanted: set<Hash>)
    returns (r: Result<set<Hash>>)
    requires forall id | id in wanted :: id !in tips
    ensures r.Ok? ==> Answers(objects, Members(tips), full, wanted, r.value)
    ensures r.Err? ==> Hole(objects, broken, Members(tips), full, wanted)
  {
    hide Staged, Walking, Answers, Hole, Visible, Next, Now, Later, Shown;
    ghost var refs, done := Members(tips), {};
    var w := EnqueueAll(Walk(Members(tips), wanted, {}, [], {}), tips, {});
    StartWalking(objects, refs, full, wanted, w);
    while w.queue != [] && w.needed != {}
      invariant Walking(objects, refs, full, wanted, w, done) && (w.queue == [] ==> w.parents == {})
      invariant Staged(objects, refs, full, wanted, w, done)
      decreases Universe(objects, refs, full) - done
    {
      var id := w.queue[0];
      var o := ReadObject(objects, broken, id);
      if o.Err? || o.value.None? {
        BlockedAt(objects, broken, refs, full, wanted, w, done);
        return Err(if o.Err? then o.error else InvalidFormat);
      }
      var before := w;
      w := w.(queue := w.queue[1..]);
      if full || o.value.value.Commit? {
        w := Mark(w, {id});
      }
      StepBegins(objects, refs, full, wanted, before, done, id);
      if w.needed == {} {
        FoundLast(objects, refs, full, wanted, before, w, done, id);
        return Ok(w.visible);
      }
      w := Expand(w, o.value.value, full, done + {id});
      NowAndLater(objects[id], full, before.seen);
      StepEnds(objects, refs, full, wanted, before, w, done, id);
      StageGrows(objects, refs, full, wanted, before, w, done, id);
      done := done + {id};
      if w.queue == [] {
        ghost var read := w;
        w := EnqueueParents(w, done);
        NextStage(objects, refs, full, wanted, read, w, done);
      }
    }
    AnswersAtEnd(objects, refs, full, wanted, w, done);
    r := Ok(w.visible);
  }

  /** An object that cannot be read is on the way. */
  lemma {:induction false} BlockedAt(
    objects: Objects, broken: set<Hash>, tips: set<Hash>, full: bool, wanted: set<Hash>, w: Walk, done: set<Hash>)
    requires Walking(objects, tips, full, wanted, w, done) && Staged(objects, tips, full, wanted, w, done)
    requires w.queue != [] && w.needed != {} && (w.queue[0] in broken || w.queue[0] !in objects)
    ensures Hole(objects, broken, tips, full, wanted)
  {
    var id := w.queue[0];
    assert id in w.seen;
    assert Reached(objects, tips, full, id);
  }

  lemma {:induction false} NowAndLater(o: GitObject, full: bool, seen: set<Hash>)
    ensures seen + Next(o, full) == seen + Now(o, full) + Later(o, seen)
  {
  }

  // ---- The answer ----

  datatype Fetch = Granted(haves: seq<Hash>) | Refused | Failed(error: Error)

  function Select(ids: seq<Hash>, visible: set<Hash>): seq<Hash> {
    if ids == [] then []
    else
      var init, last := Select(ids[..|ids| - 1], visible), ids[|ids| - 1];
      if last in visible then init + [last] else init
  }

  lemma {:induction false} SelectMembers(ids: seq<Hash>, visible: set<Hash>, id: Hash)
    ensures id in Select(ids, visible) <==> id in ids && id in visible
  {
    if ids != [] {
      SelectMembers(ids[..|ids| - 1], visible, id);
      assert ids == ids[..|ids| - 1] + [ids[|ids| - 1]];
    }
  }

  /** Nothing unpublished is granted, and every have that exists and is visible is used. */
  ghost predicate Exact(objects: Objects, tips: set<Hash>, full: bool, haves: seq<Hash>, granted: seq<Hash>) {
    && (exists visible :: granted == Select(haves, visible))
    && (forall id | id in granted :: id in haves && Visible(objects, tips, full, id))
    && (forall id | id in haves && (id in objects || id in tips) && Visible(objects, tips, full, id) :: id in granted)
  }

  ghost function Sought(objects: Objects, tips: set<Hash>, full: bool, wants: seq<Hash>, haves: seq<Hash>): set<Hash> {
    set id | id in objects && MustFind(objects, tips, full, wants, haves, id)
  }

  /**
  Grants a request only if every want is published, and then keeps exactly the published haves.
  Refuses only if some want is not published or does not exist.
  */
  method VisibleFetch(objects: Objects, broken: set<Hash>, tips: seq<Hash>, wants: seq<Hash>, haves: seq<Hash>)
    returns (r: Fetch)
    ensures r.Granted? ==>
              var full := NeedsFullWalk(objects, Members(tips), wants);
              && (forall w | w in wants :: Visible(objects, Members(tips), full, w))
              && Exact(objects, Members(tips), full, haves, r.haves)
    ensures r.Refused? ==>
              var full := NeedsFullWalk(objects, Members(tips), wants);
              exists w :: w in wants && (w !in objects || !Visible(objects, Members(tips), full, w))
    ensures r.Failed? ==>
              var full := NeedsFullWalk(objects, Members(tips), wants);
              || Unreadable(broken, Members(tips), wants, haves)
              || Hole(objects, broken, Members(tips), full, Sought(objects, Members(tips), full, wants, haves))
  {
    var refs := Members(tips);
    var asked := Classify(objects, broken, refs, wants, haves);
    if asked.Err? {
      return Failed(asked.error);
    }
    var (full, needed) := asked.value;
    assert needed == Sought(objects, refs, full, wants, haves);
    var walked := RunWalk(objects, broken, tips, full, needed);
    if walked.Err? {
      return Failed(walked.error);
    }
    var visible := walked.value;
    var i := 0;
    while i < |wants|
      invariant i <= |wants| && forall w | w in wants[..i] :: w in visible
    {
      if wants[i] !in visible {
        AnsweredWant(objects, refs, full, wants, haves, needed, visible, wants[i]);
        return Refused;
      }
      assert wants[..i + 1] == wants[..i] + [wants[i]];
      i := i + 1;
    }
    assert wants[..i] == wants;
    var valid: seq<Hash> := [];
    i := 0;
    while i < |haves|
      invariant i <= |haves| && valid == Select(haves[..i], visible)
    {
      assert haves[..i + 1][..i] == haves[..i];
      if haves[i] in visible {
        valid := valid + [haves[i]];
      }
      i := i + 1;
    }
    assert haves[..i] == haves;
    AnsweredHaves(objects, refs, full, wants, haves, needed, visible);
    r := Granted(valid);
  }

  lemma {:induction false} AnsweredWant(
    objects: Objects, tips: set<Hash>, full: bool, wants: seq<Hash>, haves: seq<Hash>,
    needed: set<Hash>, visible: set<Hash>, w: Hash)
    requires Answers(objects, tips, full, needed, visible) && w in wants && w !in visible
    requires forall id :: id in needed <==> MustFind(objects, tips, full, wants, haves, id)
    ensures w !in objects || !Visible(objects, tips, full, w)
  {
    hide Visible;
  }

  lemma {:induction false} AnsweredHaves(
    objects: Objects, tips: set<Hash>, full: bool, wants: seq<Hash>, haves: seq<Hash>,
    needed: set<Hash>, visible: set<Hash>)
    requires Answers(objects, tips, full, needed, visible)
    requires forall id :: id in needed <==> MustFind(objects, tips, full, wants, haves, id)
    ensures Exact(objects, tips, full, haves, Select(haves, visible))
  {
    hide Visible;
    var granted := Select(haves, visible);
    forall id ensures id in granted <==> id in haves && id in visible { SelectMembers(haves, visible, id); }
    forall id | id in haves && (id in objects || id in tips) && Visible(objects, tips, full, id) ensures id in granted {
      if id !in tips && !full { OnlyCommits(objects, tips, id); }
    }
  }

  /** What a refusal says: in an intact store, that some want is not published. */
  lemma {:induction false} RefusalIsExact(objects: Objects, tips: set<Hash>, full: bool, w: Hash)
    requires Intact(objects, tips)
    ensures (w !in objects || !Visible(objects, tips, full, w)) <==> !Visible(objects, tips, full, w)
  {
    hide Visible;
    if Visible(objects, tips, full, w) { VisibleExists(objects, tips, full, w); }
  }

  /** In an intact and readable store a request is granted exactly when every want is published. */
  method FetchIntact(objects: Objects, tips: seq<Hash>, wants: seq<Hash>, haves: seq<Hash>) returns (r: Fetch)
    requires Intact(objects, Members(tips))
    ensures !r.Failed?
    ensures r.Granted? <==>
            forall w | w in wants :: Visible(objects, Members(tips), NeedsFullWalk(objects, Members(tips), wants), w)
    ensures r.Granted? ==>
              forall h | h in haves :: h in r.haves <==>
                Visible(objects, Members(tips), NeedsFullWalk(objects, Members(tips), wants), h)
  {
    hide Visible, Intact;
    ghost var full := NeedsFullWalk(objects, Members(tips), wants);
    IntactHasNoHole(objects, Members(tips), full, Sought(objects, Members(tips), full, wants, haves));
    r := VisibleFetch(objects, {}, tips, wants, haves);
    forall id | Visible(objects, Members(tips), full, id) ensures id in objects {
      VisibleExists(objects, Members(tips), full, id);
    }
  }
}
