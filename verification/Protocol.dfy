/**
The shared storage of one log and everything that may happen to it.

One mutable head and many immutable objects. Any number of handles issue
requests; a request takes effect later, out of order, or never, and its reply
may be lost. Nothing here limits when an issued head update or delete lands:
both stay in the state for ever and a delete may land any number of times.

Assumptions about the storage service and the identity source:
  - a digest determines its content (a key carries the content itself);
  - a storage identity is drawn fresh, except that one prepared commit keeps its own;
  - each create request takes effect at most once;
  - every key is linearizable, and only deletes issued by the log remove it.
*/
module Protocol {
  import opened Wrappers
  import opened Words
  import opened Heads

  /** A conditional head update: it lands only while `expected` is the current head. */
  datatype Cas = Cas(expected: Head, change: Change)

  /** `key` was found at `generation`: present for a sighting, absent for an erasure. */
  datatype Sighting = Sighting(key: Key, generation: nat)

  /** A handle's permission to publish `key` during one collection epoch. */
  datatype Proof = Proof(epoch: nat, key: Key)

  /** A create call made against the head of one generation. */
  datatype Put = Put(view: nat, key: Key)

  datatype Prepared = Prepared(view: nat, commit: CommitRef)

  datatype PendingCheckpoint = PendingCheckpoint(view: nat, through: CommitRef, key: Key)

  datatype Upload = Upload(view: nat, plan: PlanRef)

  datatype State = State(
    heads: seq<Head>,              // every head published so far; the last one is current
    changes: seq<Change>,          // the update that led from each head to the next
    store: set<Key>,               // immutable objects present now
    born: set<Key>,                // immutable objects that were ever present
    issued: set<StorageId>,        // storage identities drawn so far
    creates: multiset<Key>,        // create requests that have not landed
    cas: set<Cas>,                 // head updates ever issued
    deletes: set<Key>,             // keys whose deletion was ever requested
    seen: set<Sighting>,           // successful reads, listings and creates
    gone: set<Sighting>,           // deletes that landed
    puts: set<Put>,                // blob and node creates ever issued
    proofs: set<Proof>,            // staged proofs ever handed out
    prepared: set<Prepared>,       // commit candidates ever prepared
    checkpoints: set<PendingCheckpoint>,
    uploads: set<Upload>)          // collection plans ever uploaded

  function Initial(logId: nat, incarnation: nat, options: Options): State {
    State([EmptyHead(logId, incarnation, options)], [], {}, {}, {}, multiset{}, {}, {}, {}, {}, {}, {}, {}, {}, {})
  }

  function Now(s: State): nat
    requires s.heads != []
  {
    |s.heads| - 1
  }

  function Current(s: State): Head
    requires s.heads != []
  {
    s.heads[|s.heads| - 1]
  }

  datatype Event =
    | PutObject(view: nat, key: Key)                        // put_object and put_node draw an identity
    | Land(key: Key)                                        // a create request takes effect
    | Observe(key: Key)                                     // a read or listing meets a present key
    | AcknowledgePut(put: Put)                              // the create call returns its proof
    | Verify(view: nat, key: Key)                           // stage_objects or publication walks a whole graph
    | DeriveChild(epoch: nat, parent: Key, child: Key)      // read_staged_node
    | FromHistory(view: nat, key: Key)                      // a history record yields proofs
    | Prepare(view: nat, commit: CommitRef)
    | CreateCommit(prepared: Prepared)                      // ensure_immutable, possibly again on recovery
    | AttemptCommit(prepared: Prepared, view: nat)
    | StageCheckpoint(view: nat, through: CommitRef, key: Key)
    | AttemptCheckpoint(pending: PendingCheckpoint, view: nat)
    | AttemptRetention(view: nat, retention: RetentionChange)
    | UploadPlan(view: nat, plan: PlanRef)
    | AttemptInstall(upload: Upload)
    | DeleteCandidate(view: nat, key: Key)                  // resume_collection submits one key
    | Erase(key: Key)                                       // a delete lands, not for the last time
    | AttemptUnfence(loaded: nat, view: nat)
    | CleanUp(upload: Upload, view: nat)                    // a plan object is no longer needed
    | Swap(cas: Cas)                                        // a head update lands

  predicate IsDependency(k: Key) { k.body.Blob? || k.body.Node? }

  predicate SeenSince(s: State, k: Key, generation: nat) {
    exists w | w in s.seen :: w.key == k && w.generation >= generation
  }

  predicate ErasedSince(s: State, k: Key, generation: nat) {
    exists w | w in s.gone :: w.key == k && w.generation >= generation
  }

  predicate Proved(proofs: set<Proof>, epoch: nat, ks: seq<Key>) {
    forall k | k in ks :: Proof(epoch, k) in proofs
  }

  /** `k` is listed in a record that the head names directly. */
  predicate DirectDependency(h: Head, k: Key) {
    || (exists e | e in h.tail :: e.key.body.Commit? && k in e.key.body.objects)
    || (h.checkpoint.Some? && h.checkpoint.value.key.body.Checkpoint?
        && k in h.checkpoint.value.key.body.objects)
  }

  /** What each step requires of the step's caller and of the storage service. */
  predicate Enabled(s: State, e: Event)
    requires s.heads != []
  {
    match e
    case PutObject(view, key) =>
      && view < |s.heads|
      && key.id !in s.issued
      && IsDependency(key)
      && (key.body.Node? ==> Proved(s.proofs, s.heads[view].collectionEpoch, key.body.children))
    case Land(key) => key in s.creates
    case Observe(key) => key in s.store
    case AcknowledgePut(put) =>
      put in s.puts && put.view < |s.heads| && put.key in s.born
    case Verify(view, key) =>
      && view < |s.heads|
      && (forall k | k in Closure(key) ::
            && IsDependency(k)
            && SeenSince(s, k, view)
            && k !in Candidates(s.heads[view]))
    case DeriveChild(epoch, parent, child) =>
      && Proof(epoch, parent) in s.proofs
      && parent.body.Node?
      && child in parent.body.children
    case FromHistory(view, key) =>
      view < |s.heads| && DirectDependency(s.heads[view], key)
    case Prepare(view, commit) =>
      && view < |s.heads|
      && commit.key.id !in s.issued
      && AllowedAppend(s.heads[view], commit)
      && Proved(s.proofs, s.heads[view].collectionEpoch, commit.key.body.objects)
    case CreateCommit(prepared) => prepared in s.prepared
    case AttemptCommit(prepared, view) =>
      && prepared in s.prepared
      && prepared.view < |s.heads|
      && view < |s.heads|
      && s.heads[view].generation < U64_MAX
      && SamePublicationBase(s.heads[prepared.view], s.heads[view])
      && prepared.commit.key in s.born
    case StageCheckpoint(view, through, key) =>
      && view < |s.heads|
      && key.id !in s.issued
      && AllowedCompact(s.heads[view], through, key)
      && Proved(s.proofs, s.heads[view].collectionEpoch, key.body.objects)
    case AttemptCheckpoint(pending, view) =>
      && pending in s.checkpoints
      && pending.view < |s.heads|
      && view < |s.heads|
      && s.heads[view].generation < U64_MAX
      && CheckpointAppendBase(s.heads[pending.view], s.heads[view])
      && pending.key in s.born
    case AttemptRetention(view, retention) =>
      view < |s.heads| && Allowed(s.heads[view], Retention(retention))
    case UploadPlan(view, plan) =>
      && view < |s.heads|
      && plan.key.id !in s.issued
      && AllowedInstall(s.heads[view], plan)
      && (forall k | k in plan.key.body.candidates :: SeenSince(s, k, view))
    case AttemptInstall(upload) =>
      && upload in s.uploads
      && upload.view < |s.heads|
      && s.heads[upload.view].generation < U64_MAX
      && upload.plan.key in s.born
    case DeleteCandidate(view, key) =>
      view < |s.heads| && key in Candidates(s.heads[view])
    case Erase(key) => key in s.deletes
    case AttemptUnfence(loaded, view) =>
      && loaded <= view < |s.heads|
      && s.heads[view].generation < U64_MAX
      && s.heads[view].activePlan.Some?
      && s.heads[loaded].activePlan == s.heads[view].activePlan
      && (forall k | k in Candidates(s.heads[view]) :: ErasedSince(s, k, loaded))
    case CleanUp(upload, view) =>
      && upload in s.uploads
      && upload.plan.key in s.born
      && upload.view < view < |s.heads|
      && s.heads[view].activePlan != Some(upload.plan)
    case Swap(cas) =>
      cas in s.cas && cas.expected == Current(s)
  }

  function Apply(s: State, e: Event): State
    requires s.heads != [] && Enabled(s, e)
  {
    match e
    case PutObject(view, key) =>
      s.(issued := s.issued + {key.id}, creates := s.creates + multiset{key}, puts := s.puts + {Put(view, key)})
    case Land(key) =>
      s.(creates := s.creates - multiset{key},
      store := s.store + {key},
      born := s.born + {key},
      seen := s.seen + {Sighting(key, Now(s))})
    case Observe(key) =>
      s.(seen := s.seen + {Sighting(key, Now(s))})
    case AcknowledgePut(put) =>
      s.(proofs := s.proofs + {Proof(s.heads[put.view].collectionEpoch, put.key)})
    case Verify(view, key) =>
      s.(proofs := s.proofs + {Proof(s.heads[view].collectionEpoch, key)})
    case DeriveChild(epoch, _, child) =>
      s.(proofs := s.proofs + {Proof(epoch, child)})
    case FromHistory(view, key) =>
      s.(proofs := s.proofs + {Proof(s.heads[view].collectionEpoch, key)})
    case Prepare(view, commit) =>
      s.(issued := s.issued + {commit.key.id}, prepared := s.prepared + {Prepared(view, commit)})
    case CreateCommit(prepared) =>
      s.(creates := s.creates + multiset{prepared.commit.key})
    case AttemptCommit(prepared, view) =>
      s.(cas := s.cas + {Cas(s.heads[view], Append(prepared.commit))})
    case StageCheckpoint(view, through, key) =>
      s.(issued := s.issued + {key.id},
      creates := s.creates + multiset{key},
      checkpoints := s.checkpoints + {PendingCheckpoint(view, through, key)})
    case AttemptCheckpoint(pending, view) =>
      s.(cas := s.cas + {Cas(s.heads[view], Compact(pending.through, pending.key))})
    case AttemptRetention(view, retention) =>
      s.(cas := s.cas + {Cas(s.heads[view], Retention(retention))})
    case UploadPlan(view, plan) =>
      s.(issued := s.issued + {plan.key.id},
      creates := s.creates + multiset{plan.key},
      uploads := s.uploads + {Upload(view, plan)})
    case AttemptInstall(upload) =>
      s.(cas := s.cas + {Cas(s.heads[upload.view], Install(upload.plan))})
    case DeleteCandidate(_, key) =>
      s.(deletes := s.deletes + {key})
    case Erase(key) =>
      s.(store := s.store - {key}, gone := s.gone + {Sighting(key, Now(s))})
    case AttemptUnfence(_, view) =>
      s.(cas := s.cas + {Cas(s.heads[view], Unfence)})
    case CleanUp(upload, _) =>
      s.(deletes := s.deletes + {upload.plan.key})
    case Swap(cas) =>
      s.(heads := s.heads + [After(cas.expected, cas.change)], changes := s.changes + [cas.change])
  }

  // ---- Runs ----

  /** Every event of the run was possible when it happened. */
  ghost predicate Legal(s: State, events: seq<Event>)
    requires s.heads != []
    decreases |events|
  {
    events == [] || (Enabled(s, events[0]) && Apply(s, events[0]).heads != [] && Legal(Apply(s, events[0]), events[1..]))
  }

  ghost function Run(s: State, events: seq<Event>): State
    requires s.heads != [] && Legal(s, events)
    decreases |events|
  {
    if events == [] then s else Run(Apply(s, events[0]), events[1..])
  }

  lemma {:induction false} NoEvents(s: State)
    requires s.heads != []
    ensures Legal(s, []) && Run(s, []) == s
  {
  }

  lemma {:induction false} RunCons(s: State, e: Event, rest: seq<Event>)
    requires s.heads != [] && Enabled(s, e) && Apply(s, e).heads != [] && Legal(Apply(s, e), rest)
    ensures Legal(s, [e] + rest) && Run(s, [e] + rest) == Run(Apply(s, e), rest)
  {
    hide Enabled, Apply;
    assert ([e] + rest)[1..] == rest;
  }

  lemma {:induction false} RunAppend(s: State, a: seq<Event>, b: seq<Event>)
    requires s.heads != [] && Legal(s, a) && Run(s, a).heads != [] && Legal(Run(s, a), b)
    ensures Legal(s, a + b) && Run(s, a + b) == Run(Run(s, a), b)
    decreases |a|
  {
    hide Enabled, Apply;
    if a == [] {
      assert a + b == b;
    } else {
      assert (a + b)[1..] == a[1..] + b;
      RunAppend(Apply(s, a[0]), a[1..], b);
    }
  }

  /** `s` can come about in a log that started empty. */
  ghost predicate Reachable(s: State) {
    exists logId, incarnation, options, events ::
      IsRun(Initial(logId, incarnation, options), events, s)
  }

  ghost predicate IsRun(start: State, events: seq<Event>, end: State)
    requires start.heads != []
  {
    Legal(start, events) && Run(start, events) == end
  }

  /** `b` is `a` some time later. */
  ghost predicate Leads(a: State, b: State) {
    a.heads != [] && exists events :: IsRun(a, events, b)
  }

  lemma {:induction false} LeadsNowhere(s: State)
    requires s.heads != []
    ensures Leads(s, s)
  {
    assert IsRun(s, [], s);
  }

  lemma {:induction false} LeadsStep(s: State, e: Event)
    requires s.heads != [] && Enabled(s, e) && Apply(s, e).heads != []
    ensures Leads(s, Apply(s, e))
  {
    RunCons(s, e, []);
    assert IsRun(s, [e] + [], Apply(s, e));
  }

  lemma {:induction false} LeadsOn(a: State, b: State, c: State)
    requires Leads(a, b) && Leads(b, c)
    ensures Leads(a, c)
  {
    var first :| IsRun(a, first, b);
    var second :| IsRun(b, second, c);
    RunAppend(a, first, second);
    assert IsRun(a, first + second, c);
  }

  lemma {:induction false} ReachableLater(a: State, b: State)
    requires Reachable(a) && Leads(a, b)
    ensures Reachable(b)
  {
    var logId, incarnation, options, events :| IsRun(Initial(logId, incarnation, options), events, a);
    var more :| IsRun(a, more, b);
    RunAppend(Initial(logId, incarnation, options), events, more);
    assert IsRun(Initial(logId, incarnation, options), events + more, b);
  }
}
