/**
The walk over an object graph that collection and publication share: a queue of
references, active reads that complete in any order under a byte budget, and declared
subtree counts that the walk authenticates.
*/
module GraphWalk {
  import opened Wrappers
  import opened Words
  import opened Heads

  const MAX_CONCURRENT_READS: nat := 32

  datatype Ref = Ref(key: Key, len: nat, count: nat)

  /** What is read under a key: its length, whether its digest is right, and its decoded children. */
  datatype Stored = Stored(len: nat, intact: bool, children: Option<seq<Ref>>)

  datatype Mode = Reachability | VerifyBlobs

  /** Everything one walk is given, apart from its roots and the keys already visited. */
  datatype Config = Config(
    store: map<Key, Stored>, mode: Mode, blocked: set<Key>, maxObjects: nat, maxBytes: nat)

  /** Declared length and subtree count. */
  datatype Meta = Meta(len: nat, count: nat)

  // ---- Subtree accounting ----

  predicate ValidCount(r: Ref) {
    Countable(r.key.body.Blob?, r.count)
  }

  function Sum(rs: seq<Ref>): nat {
    if rs == [] then 0 else rs[0].count + Sum(rs[1..])
  }

  /** Adds the declared counts to `total`, refusing a bad count or an overflow. */
  function FoldCounts(rs: seq<Ref>, total: nat): (r: Result<nat>)
    requires total <= U64_MAX
    ensures r.Ok? <==> (forall c | c in rs :: ValidCount(c)) && total + Sum(rs) <= U64_MAX
    ensures r.Ok? ==> r.value == total + Sum(rs)
  {
    if rs == [] then Ok(total)
    else if !ValidCount(rs[0]) then Err(CorruptObject)
    else if total + rs[0].count > U64_MAX then Err(LimitExceeded)
    else
      assert rs == [rs[0]] + rs[1..];
      FoldCounts(rs[1..], total + rs[0].count)
  }

  /** What an object with these children has to declare: a shared child counts every time it is named. */
  function SubtreeObjects(children: seq<Ref>): Result<nat> {
    FoldCounts(children, 1)
  }

  // ---- One object ----

  /** Reads one object and returns its outgoing references. */
  function ReadChildren(store: map<Key, Stored>, r: Ref): Result<seq<Ref>> {
    if r.key !in store then Err(InvalidFormat)
    else if store[r.key].len != r.len || !store[r.key].intact then Err(CorruptObject)
    else match r.key.body
      case Blob(_) => Ok([])
      case Node(_, _) =>
        if store[r.key].children.None? then Err(InvalidFormat)
        else if SubtreeObjects(store[r.key].children.value) != Ok(r.count) then Err(CorruptObject)
        else Ok(store[r.key].children.value)
      case _ => Err(InvalidFormat)
  }

  /** A reachability walk takes blobs on trust; they have no edges. */
  function Expand(cfg: Config, r: Ref): Result<seq<Ref>> {
    if cfg.mode.Reachability? && r.key.body.Blob? then Ok([]) else ReadChildren(cfg.store, r)
  }

  /** The checks made before an object is queued. */
  predicate Admissible(cfg: Config, r: Ref) {
    && (r.key.body.Blob? || r.key.body.Node?)
    && ValidCount(r)
    && r.key !in cfg.blocked
    && r.len <= cfg.maxBytes
  }

  // ---- The graph below the roots ----

  /** `rs` holds the roots and everything its readable members refer to. */
  ghost predicate Closed(cfg: Config, roots: seq<Ref>, rs: set<Ref>) {
    && (forall r | r in roots :: r in rs)
    && (forall r, c | r in rs && Expand(cfg, r).Ok? && c in Expand(cfg, r).value :: c in rs)
  }

  ghost function Keys(rs: set<Ref>): set<Key> { set r | r in rs :: r.key }

  /** Why a walk must succeed: a closed set of sound, consistent references within the object limit. */
  ghost predicate Certificate(cfg: Config, roots: seq<Ref>, visited: map<Key, Meta>, rs: set<Ref>) {
    && Closed(cfg, roots, rs)
    && (forall r | r in rs :: Admissible(cfg, r) && Expand(cfg, r).Ok?)
    && (forall a, b | a in rs && b in rs :: a.key == b.key ==> a == b)
    && |visited.Keys + Keys(rs)| <= cfg.maxObjects
  }

  /** The references recorded in `visited` beyond those in `before`. */
  ghost function Met(before: map<Key, Meta>, visited: map<Key, Meta>): set<Ref> {
    set k | k in visited && k !in before :: Ref(k, visited[k].len, visited[k].count)
  }

  // ---- The walk ----

  ghost predicate Distinct(rs: seq<Ref>) {
    forall i, j | 0 <= i < j < |rs| :: rs[i].key != rs[j].key
  }

  ghost predicate Fresh(visited: map<Key, Meta>) {
    forall k | k in visited :: !k.body.Blob? && !k.body.Node?
  }

  /** `work` is queued or being read; `late` has been found and not yet been looked at. */
  ghost predicate Walking(
    cfg: Config, roots: seq<Ref>, before: map<Key, Meta>,
    visited: map<Key, Meta>, work: seq<Ref>, late: seq<Ref>)
  {
    var met := Met(before, visited);
    && (forall k | k in before :: k in visited && visited[k] == before[k])
    && |visited| <= cfg.maxObjects
    && (forall r | r in met :: Admissible(cfg, r))
    && Distinct(work) && (forall r | r in work :: r in met)
    && (forall r | r in met && r !in work :: Expand(cfg, r).Ok?)
    && (forall r, c | r in met && r !in work && c in Expand(cfg, r).value :: c in met || c in late)
    && (forall r | r in roots :: r in met || r in late)
  }

  /** Everything found so far is in every closed set. */
  ghost predicate Forced(cfg: Config, roots: seq<Ref>, met: set<Ref>, late: seq<Ref>) {
    forall rs | Closed(cfg, roots, rs) :: met <= rs && forall r | r in late :: r in rs
  }

  ghost predicate Hopeless(cfg: Config, roots: seq<Ref>, before: map<Key, Meta>) {
    forall rs :: !Certificate(cfg, roots, before, rs)
  }

  /** A reference fits what was visited before: it is new and within limits, or it agrees. */
  ghost predicate Accepted(cfg: Config, visited: map<Key, Meta>, r: Ref) {
    && (r.key.body.Blob? || r.key.body.Node?)
    && ValidCount(r)
    && r.key !in cfg.blocked
    && (r.key in visited ==> visited[r.key] == Meta(r.len, r.count))
    && (r.key !in visited ==> |visited| < cfg.maxObjects && r.len <= cfg.maxBytes)
  }

  method Enqueue(cfg: Config, target: Ref, visited: map<Key, Meta>, pending: seq<Ref>)
    returns (r: Result<(map<Key, Meta>, seq<Ref>)>)
    ensures r.Ok? <==> Accepted(cfg, visited, target)
    ensures r.Err? ==> r.error != StoreFailure
    ensures r.Ok? && target.key in visited ==> r.value == (visited, pending)
    ensures r.Ok? && target.key !in visited ==>
      r.value == (visited[target.key := Meta(target.len, target.count)], pending + [target])
  {
    if !target.key.body.Blob? && !target.key.body.Node? {
      return Err(InvalidFormat);
    }
    if !ValidCount(target) {
      return Err(CorruptObject);
    }
    if target.key in cfg.blocked {
      return Err(CollectionFence);
    }
    var metadata := Meta(target.len, target.count);
    if target.key in visited {
      if visited[target.key] != metadata {
        return Err(CorruptObject);
      }
      return Ok((visited, pending));
    }
    var visited' := visited[target.key := metadata];
    if |visited'| > cfg.maxObjects {
      return Err(LimitExceeded);
    }
    if target.len > cfg.maxBytes {
      return Err(LimitExceeded);
    }
    r := Ok((visited', pending + [target]));
  }

  /** A refused reference rules out every certificate. */
  lemma {:induction false} RefusedMeansHopeless(
    cfg: Config, roots: seq<Ref>, before: map<Key, Meta>, visited: map<Key, Meta>, late: seq<Ref>, r: Ref)
    requires Fresh(before) && Forced(cfg, roots, Met(before, visited), late) && r in late
    requires !Accepted(cfg, visited, r)
    ensures Hopeless(cfg, roots, before)
  {
    forall rs ensures !Certificate(cfg, roots, before, rs) {
      if Certificate(cfg, roots, before, rs) {
        CertifiedIsAccepted(cfg, roots, before, visited, rs, r);
      }
    }
  }

  lemma {:induction false} CertifiedIsAccepted(
    cfg: Config, roots: seq<Ref>, before: map<Key, Meta>, visited: map<Key, Meta>, rs: set<Ref>, r: Ref)
    requires Fresh(before) && Certificate(cfg, roots, before, rs)
    requires Met(before, visited) <= rs && r in rs
    ensures Accepted(cfg, visited, r)
  {
    assert Admissible(cfg, r);
    if r.key in visited {
      assert Ref(r.key, visited[r.key].len, visited[r.key].count) in Met(before, visited);
    } else {
      assert visited.Keys + {r.key} <= before.Keys + Keys(rs) by { MetKeys(before, visited, rs); }
      Fits(visited.Keys + {r.key}, before.Keys + Keys(rs));
    }
  }

  lemma {:induction false} MetKeys(before: map<Key, Meta>, visited: map<Key, Meta>, rs: set<Ref>)
    requires Met(before, visited) <= rs
    ensures visited.Keys <= before.Keys + Keys(rs)
  {
    forall k | k in visited && k !in before ensures k in Keys(rs) {
      assert Ref(k, visited[k].len, visited[k].count) in Met(before, visited);
    }
  }

  lemma {:induction false} Fits<T>(a: set<T>, b: set<T>)
    requires a <= b
    ensures |a| <= |b|
  {
    assert b == a + (b - a);
  }

  lemma {:induction false} MetGrows(before: map<Key, Meta>, visited: map<Key, Meta>, r: Ref)
    requires r.key !in visited && r.key !in before
    ensures Met(before, visited[r.key := Meta(r.len, r.count)]) == Met(before, visited) + {r}
  {
    var met' := Met(before, visited[r.key := Meta(r.len, r.count)]);
    forall x | x in Met(before, visited) + {r} ensures x in met' {
      if x != r { assert x.key in visited; }
    }
  }

  lemma {:induction false} DistinctGrows(work: seq<Ref>, r: Ref, visited: map<Key, Meta>)
    requires Distinct(work) && r.key !in visited && forall x | x in work :: x.key in visited
    ensures Distinct(work + [r])
  {
    var more := work + [r];
    forall i, j | 0 <= i < j < |more| ensures more[i].key != more[j].key {
      assert more[i] in work;
    }
  }

  /** The queue and the visited keys grew together. */
  ghost predicate Grew(
    before: map<Key, Meta>, visited: map<Key, Meta>, visited': map<Key, Meta>, pending: seq<Ref>, pending': seq<Ref>)
  {
    && (forall k | k in visited :: k in visited' && visited'[k] == visited[k])
    && (forall r | r in pending' :: r in pending || r.key !in visited)
    && (forall r | r in pending :: r in pending')
    && (forall r | r in Met(before, visited') && r.key !in visited :: r in pending')
    && |visited'| - |visited| == |pending'| - |pending| >= 0
  }

  /** Looks at every reference found by the last read. */
  method EnqueueAll(
    cfg: Config, ghost roots: seq<Ref>, ghost before: map<Key, Meta>,
    visited0: map<Key, Meta>, pending0: seq<Ref>, ghost active: seq<Ref>, found: seq<Ref>)
    returns (r: Result<(map<Key, Meta>, seq<Ref>)>)
    requires Fresh(before)
    requires Walking(cfg, roots, before, visited0, active + pending0, found)
    requires Forced(cfg, roots, Met(before, visited0), found)
    ensures r.Ok? ==>
      && Walking(cfg, roots, before, r.value.0, active + r.value.1, [])
      && Forced(cfg, roots, Met(before, r.value.0), [])
      && Grew(before, visited0, r.value.0, pending0, r.value.1)
    ensures r.Err? ==> Hopeless(cfg, roots, before) && r.error != StoreFailure
  {
    hide Walking, Forced, Hopeless, Accepted, Met, Grew;
    StartGrowing(before, visited0, pending0);
    var visited, pending := visited0, pending0;
    var i := 0;
    while i < |found|
      invariant i <= |found|
      invariant Walking(cfg, roots, before, visited, active + pending, found[i..])
      invariant Forced(cfg, roots, Met(before, visited), found[i..])
      invariant Grew(before, visited0, visited, pending0, pending)
    {
      var next := Enqueue(cfg, found[i], visited, pending);
      if next.Err? {
        RefusedMeansHopeless(cfg, roots, before, visited, found[i..], found[i]);
        return Err(next.error);
      }
      if found[i].key in visited {
        KnownStep(cfg, roots, before, visited, active + pending, found[i..]);
      } else {
        NewStep(cfg, roots, before, visited, active + pending, found[i..]);
        assert active + (pending + [found[i]]) == (active + pending) + [found[i]];
        GrowsOn(before, visited0, visited, pending0, pending, found[i]);
      }
      visited, pending := next.value.0, next.value.1;
      assert found[i..][1..] == found[i + 1..];
      i := i + 1;
    }
    assert found[i..] == [];
    r := Ok((visited, pending));
  }

  lemma {:induction false} StartGrowing(before: map<Key, Meta>, visited: map<Key, Meta>, pending: seq<Ref>)
    ensures Grew(before, visited, visited, pending, pending)
  {
  }

  lemma {:induction false} GrowsOn(
    before: map<Key, Meta>, visited0: map<Key, Meta>, visited: map<Key, Meta>, pending0: seq<Ref>, pending: seq<Ref>, r: Ref)
    requires Grew(before, visited0, visited, pending0, pending) && r.key !in visited && r.key !in before
    ensures Grew(before, visited0, visited[r.key := Meta(r.len, r.count)], pending0, pending + [r])
  {
    hide Met;
    MetGrows(before, visited, r);
    var visited' := visited[r.key := Meta(r.len, r.count)];
    assert visited'.Keys == visited.Keys + {r.key};
  }

  lemma {:induction false} KnownStep(
    cfg: Config, roots: seq<Ref>, before: map<Key, Meta>, visited: map<Key, Meta>, work: seq<Ref>, late: seq<Ref>)
    requires Fresh(before) && late != []
    requires Walking(cfg, roots, before, visited, work, late)
    requires Forced(cfg, roots, Met(before, visited), late)
    requires Accepted(cfg, visited, late[0]) && late[0].key in visited
    ensures Walking(cfg, roots, before, visited, work, late[1..])
    ensures Forced(cfg, roots, Met(before, visited), late[1..])
  {
    assert late == [late[0]] + late[1..];
    assert late[0] in Met(before, visited);
  }

  lemma {:induction false} NewStep(
    cfg: Config, roots: seq<Ref>, before: map<Key, Meta>, visited: map<Key, Meta>, work: seq<Ref>, late: seq<Ref>)
    requires Fresh(before) && late != []
    requires Walking(cfg, roots, before, visited, work, late)
    requires Forced(cfg, roots, Met(before, visited), late)
    requires Accepted(cfg, visited, late[0]) && late[0].key !in visited
    ensures late[0].key !in before
    ensures
      var visited' := visited[late[0].key := Meta(late[0].len, late[0].count)];
      && Walking(cfg, roots, before, visited', work + [late[0]], late[1..])
      && Forced(cfg, roots, Met(before, visited'), late[1..])
  {
    hide Walking, Met, Closed;
    NewWork(cfg, roots, before, visited, work, late);
    assert late == [late[0]] + late[1..];
    MetGrows(before, visited, late[0]);
  }

  lemma {:induction false} NewWork(
    cfg: Config, roots: seq<Ref>, before: map<Key, Meta>, visited: map<Key, Meta>, work: seq<Ref>, late: seq<Ref>)
    requires late != [] && Walking(cfg, roots, before, visited, work, late)
    requires Fresh(before) && Accepted(cfg, visited, late[0]) && late[0].key !in visited
    ensures Walking(cfg, roots, before, visited[late[0].key := Meta(late[0].len, late[0].count)], work + [late[0]], late[1..])
    ensures late[0].key !in before
  {
    hide Expand, Met;
    assert late == [late[0]] + late[1..];
    MetGrows(before, visited, late[0]);
    MetVisited(before, visited);
    DistinctGrows(work, late[0], visited);
  }

  lemma {:induction false} MetVisited(before: map<Key, Meta>, visited: map<Key, Meta>)
    ensures forall r | r in Met(before, visited) :: r.key in visited
  {
  }

  // ---- Reads ----

  function Bytes(rs: seq<Ref>): nat {
    if rs == [] then 0 else Bytes(rs[..|rs| - 1]) + rs[|rs| - 1].len
  }

  lemma {:induction false} BytesWithout(rs: seq<Ref>, i: nat)
    requires i < |rs|
    ensures Bytes(rs[..i] + rs[i + 1..]) == Bytes(rs) - rs[i].len
  {
    var init := rs[..|rs| - 1];
    if i == |rs| - 1 {
      assert rs[..i] + rs[i + 1..] == init;
    } else {
      BytesWithout(init, i);
      var rest := rs[..i] + rs[i + 1..];
      assert rest[..|rest| - 1] == init[..i] + init[i + 1..];
    }
  }

  predicate Skipped(cfg: Config, r: Ref) {
    cfg.mode.Reachability? && r.key.body.Blob?
  }

  function Without(rs: seq<Ref>, i: nat): seq<Ref>
    requires i < |rs|
  {
    rs[..i] + rs[i + 1..]
  }

  /** An object whose references are now known leaves the queue; they are looked at next. */
  lemma {:induction false} Expanded(
    cfg: Config, roots: seq<Ref>, before: map<Key, Meta>, visited: map<Key, Meta>, work: seq<Ref>, i: nat)
    requires Walking(cfg, roots, before, visited, work, []) && Forced(cfg, roots, Met(before, visited), [])
    requires i < |work| && Expand(cfg, work[i]).Ok?
    ensures Walking(cfg, roots, before, visited, Without(work, i), Expand(cfg, work[i]).value)
    ensures Forced(cfg, roots, Met(before, visited), Expand(cfg, work[i]).value)
  {
    forall x | x in work && x != work[i] ensures x in Without(work, i) {
      StaysIn(work, i, x);
    }
    assert forall x | x in Without(work, i) :: x in work;
  }

  lemma {:induction false} StaysIn(work: seq<Ref>, i: nat, x: Ref)
    requires i < |work| && x in work && x != work[i]
    ensures x in Without(work, i)
  {
    var j :| 0 <= j < |work| && work[j] == x;
    assert Without(work, i)[if j < i then j else j - 1] == x;
  }

  /** An unreadable object rules out every certificate. */
  lemma {:induction false} UnreadableMeansHopeless(
    cfg: Config, roots: seq<Ref>, before: map<Key, Meta>, visited: map<Key, Meta>, r: Ref)
    requires Forced(cfg, roots, Met(before, visited), []) && r in Met(before, visited)
    requires Expand(cfg, r).Err?
    ensures Hopeless(cfg, roots, before)
  {
    forall rs | Closed(cfg, roots, rs) ensures !Certificate(cfg, roots, before, rs) {
      assert r in rs;
    }
  }

  lemma {:induction false} FinishedIsCertificate(
    cfg: Config, roots: seq<Ref>, before: map<Key, Meta>, visited: map<Key, Meta>)
    requires Walking(cfg, roots, before, visited, [], [])
    ensures Certificate(cfg, roots, before, Met(before, visited))
  {
    var met := Met(before, visited);
    assert before.Keys + Keys(met) <= visited.Keys;
    Fits(before.Keys + Keys(met), visited.Keys);
  }

  /** What was read, and what is still to be read. */
  ghost predicate Logged(cfg: Config, met: set<Ref>, pending: seq<Ref>, active: seq<Ref>, log: seq<Ref>) {
    && Distinct(log)
    && (forall r | r in log :: r in met && r !in pending && !Skipped(cfg, r))
    && (forall r | r in met :: r in pending || r in log || Skipped(cfg, r))
    && (forall r | r in active :: r in log)
  }

  /** The whole state of a walk between two reads. */
  ghost predicate Sound(
    cfg: Config, roots: seq<Ref>, before: map<Key, Meta>, visited: map<Key, Meta>,
    pending: seq<Ref>, active: seq<Ref>, bytes: nat, log: seq<Ref>)
  {
    && Walking(cfg, roots, before, visited, active + pending, [])
    && Forced(cfg, roots, Met(before, visited), [])
    && |active| <= MAX_CONCURRENT_READS && bytes == Bytes(active) <= cfg.maxBytes
    && Logged(cfg, Met(before, visited), pending, active, log)
  }

  /** Starts reads while the queue, the read limit and the byte budget allow it. */
  method Fill(
    cfg: Config, ghost roots: seq<Ref>, ghost before: map<Key, Meta>, ghost visited: map<Key, Meta>,
    pending0: seq<Ref>, active0: seq<Ref>, bytes0: nat, ghost log0: seq<Ref>)
    returns (pending: seq<Ref>, active: seq<Ref>, bytes: nat, ghost log: seq<Ref>)
    requires Sound(cfg, roots, before, visited, pending0, active0, bytes0, log0)
    ensures Sound(cfg, roots, before, visited, pending, active, bytes, log)
    ensures |pending| + |active| <= |pending0| + |active0|
    ensures active == [] ==> pending == []
    ensures |active| == MAX_CONCURRENT_READS || pending == [] || pending[0].len > cfg.maxBytes - bytes
  {
    pending, active, bytes, log := pending0, active0, bytes0, log0;
    while |active| < MAX_CONCURRENT_READS && pending != []
      invariant Sound(cfg, roots, before, visited, pending, active, bytes, log)
      invariant |pending| + |active| <= |pending0| + |active0|
      decreases |pending|
    {
      var next := pending[0];
      if Skipped(cfg, next) {
        SkipStep(cfg, roots, before, visited, pending, active, bytes, log);
        pending := pending[1..];
      } else if active != [] && next.len > cfg.maxBytes - bytes {
        break;
      } else {
        StartStep(cfg, roots, before, visited, pending, active, bytes, log);
        log := log + [next];
        bytes := bytes + next.len;
        active := active + [next];
        pending := pending[1..];
      }
    }
  }

  lemma {:induction false} SkipStep(
    cfg: Config, roots: seq<Ref>, before: map<Key, Meta>, visited: map<Key, Meta>,
    pending: seq<Ref>, active: seq<Ref>, bytes: nat, log: seq<Ref>)
    requires Sound(cfg, roots, before, visited, pending, active, bytes, log)
    requires pending != [] && Skipped(cfg, pending[0])
    ensures Sound(cfg, roots, before, visited, pending[1..], active, bytes, log)
  {
    var work := active + pending;
    assert work[|active|] == pending[0];
    Expanded(cfg, roots, before, visited, work, |active|);
    assert Without(work, |active|) == active + pending[1..];
    SkipLogged(cfg, Met(before, visited), pending, active, log);
  }

  lemma {:induction false} StartStep(
    cfg: Config, roots: seq<Ref>, before: map<Key, Meta>, visited: map<Key, Meta>,
    pending: seq<Ref>, active: seq<Ref>, bytes: nat, log: seq<Ref>)
    requires Sound(cfg, roots, before, visited, pending, active, bytes, log)
    requires |active| < MAX_CONCURRENT_READS && pending != [] && !Skipped(cfg, pending[0])
    requires active == [] || pending[0].len <= cfg.maxBytes - bytes
    ensures Sound(cfg, roots, before, visited, pending[1..], active + [pending[0]], bytes + pending[0].len, log + [pending[0]])
  {
    var work, next := active + pending, pending[0];
    assert work[|active|] == next && next in work && Admissible(cfg, next);
    StartLogged(cfg, Met(before, visited), pending, active, log, work);
    assert (active + [next]) + pending[1..] == work;
    assert (active + [next])[..|active|] == active;
  }

  lemma {:induction false} SkipLogged(cfg: Config, met: set<Ref>, pending: seq<Ref>, active: seq<Ref>, log: seq<Ref>)
    requires Logged(cfg, met, pending, active, log) && pending != [] && Skipped(cfg, pending[0])
    ensures Logged(cfg, met, pending[1..], active, log)
  {
    assert pending == [pending[0]] + pending[1..];
  }

  lemma {:induction false} StartLogged(
    cfg: Config, met: set<Ref>, pending: seq<Ref>, active: seq<Ref>, log: seq<Ref>, work: seq<Ref>)
    requires Logged(cfg, met, pending, active, log) && pending != [] && !Skipped(cfg, pending[0])
    requires work == active + pending && Distinct(work) && (forall r | r in work :: r in met)
    requires forall a, b | a in met && b in met :: a.key == b.key ==> a == b
    ensures Logged(cfg, met, pending[1..], active + [pending[0]], log + [pending[0]])
  {
    var next, log' := pending[0], log + [pending[0]];
    assert pending == [next] + pending[1..];
    assert next in work;
    forall i, j | 0 <= i < j < |log'| ensures log'[i].key != log'[j].key {
      if j == |log| { assert log[i] in log; }
    }
    forall r | r in pending[1..] ensures r != next {
      var j :| 0 <= j < |pending[1..]| && pending[1..][j] == r;
      assert work[|active|] == next && work[|active| + 1 + j] == r;
    }
  }

  /**
  Walks the graph below `roots`. The verdict does not depend on the order in which reads
  complete: it is success exactly when some certificate exists, and then exactly the least
  closed set was visited. Every object that needs a read is read exactly once.
  */
  method MarkObjectGraph(cfg: Config, roots: seq<Ref>, before: map<Key, Meta>)
    returns (r: Result<map<Key, Meta>>, ghost log: seq<Ref>)
    requires Fresh(before) && |before| <= cfg.maxObjects
    ensures r.Ok? <==> exists rs :: Certificate(cfg, roots, before, rs)
    ensures r.Err? ==> r.error != StoreFailure
    ensures r.Ok? ==>
      && (forall k | k in before :: k in r.value && r.value[k] == before[k])
      && Certificate(cfg, roots, before, Met(before, r.value))
      && Forced(cfg, roots, Met(before, r.value), [])
      && (forall x | x in Met(before, r.value) :: x in log <==> !Skipped(cfg, x))
    ensures Distinct(log)
  {
    log := [];
    assert Walking(cfg, roots, before, before, [] + [], roots);
    var queued := EnqueueAll(cfg, roots, before, before, [], [], roots);
    if queued.Err? {
      return Err(queued.error), log;
    }
    var visited, pending := queued.value.0, queued.value.1;
    var active: seq<Ref>, bytes: nat := [], 0;
    while true
      invariant Sound(cfg, roots, before, visited, pending, active, bytes, log)
      decreases cfg.maxObjects - |visited|, |pending| + |active|
    {
      pending, active, bytes, log := Fill(cfg, roots, before, visited, pending, active, bytes, log);
      if active == [] {
        assert active + pending == [];
        FinishedIsCertificate(cfg, roots, before, visited);
        return Ok(visited), log;
      }
      var i :| 0 <= i < |active|;
      var done := CompleteRead(cfg, roots, before, visited, pending, active, bytes, log, i);
      if done.Err? {
        return Err(done.error), log;
      }
      bytes := bytes - active[i].len;
      active := Without(active, i);
      visited, pending := done.value.0, done.value.1;
    }
  }

  /** One read completes; the references it found join the queue. */
  method CompleteRead(
    cfg: Config, ghost roots: seq<Ref>, ghost before: map<Key, Meta>, visited: map<Key, Meta>,
    pending: seq<Ref>, active: seq<Ref>, ghost bytes: nat, ghost log: seq<Ref>, i: nat)
    returns (r: Result<(map<Key, Meta>, seq<Ref>)>)
    requires Fresh(before) && i < |active|
    requires Sound(cfg, roots, before, visited, pending, active, bytes, log)
    ensures r.Err? ==> Hopeless(cfg, roots, before) && r.error != StoreFailure
    ensures r.Ok? ==>
      && active[i].len <= bytes
      && Sound(cfg, roots, before, r.value.0, r.value.1, Without(active, i), bytes - active[i].len, log)
      && |r.value.0| - |visited| == |r.value.1| - |pending| >= 0
  {
    var children := Expand(cfg, active[i]);
    ghost var work := active + pending;
    assert work[i] == active[i];
    if children.Err? {
      UnreadableMeansHopeless(cfg, roots, before, visited, work[i]);
      return Err(children.error);
    }
    Expanded(cfg, roots, before, visited, work, i);
    BytesWithout(active, i);
    assert Without(work, i) == Without(active, i) + pending;
    r := EnqueueAll(cfg, roots, before, visited, pending, Without(active, i), children.value);
    if r.Ok? {
      LoggedGrows(cfg, before, visited, r.value.0, pending, r.value.1, active, Without(active, i), log);
    }
  }

  lemma {:induction false} LoggedGrows(
    cfg: Config, before: map<Key, Meta>, visited: map<Key, Meta>, visited': map<Key, Meta>,
    pending: seq<Ref>, pending': seq<Ref>, active0: seq<Ref>, active: seq<Ref>, log: seq<Ref>)
    requires Logged(cfg, Met(before, visited), pending, active0, log) && forall r | r in active :: r in active0
    requires Grew(before, visited, visited', pending, pending')
    ensures Logged(cfg, Met(before, visited'), pending', active, log)
  {
  }

  // ---- Declared counts bound the graph ----

  /** Every edge of a readable graph leads to a smaller declared count. */
  lemma {:induction false} EdgesDecrease(cfg: Config, r: Ref, c: Ref)
    requires r.count > 0 && Expand(cfg, r).Ok? && c in Expand(cfg, r).value
    ensures 0 < c.count < r.count
    ensures Sum(Expand(cfg, r).value) < r.count
  {
    InSum(Expand(cfg, r).value, c);
  }

  lemma {:induction false} InSum(rs: seq<Ref>, c: Ref)
    requires c in rs
    ensures c.count <= Sum(rs)
  {
    if c != rs[0] { InSum(rs[1..], c); }
  }

  ghost predicate Path(cfg: Config, path: seq<Ref>) {
    forall i | 0 <= i < |path| - 1 :: Expand(cfg, path[i]).Ok? && path[i + 1] in Expand(cfg, path[i]).value
  }

  /** A graph that a walk accepts has no cycle. */
  lemma {:induction false} AcceptedIsAcyclic(
    cfg: Config, roots: seq<Ref>, before: map<Key, Meta>, rs: set<Ref>, path: seq<Ref>)
    requires Certificate(cfg, roots, before, rs)
    requires |path| >= 2 && Path(cfg, path) && path[0] in rs
    ensures path[|path| - 1] in rs && path[|path| - 1].count < path[0].count
    ensures path[|path| - 1].key != path[0].key
  {
    hide Certificate, Expand;
    var init, last := path[..|path| - 1], path[|path| - 2];
    assert last in rs && last.count <= path[0].count by {
      if |init| >= 2 { AcceptedIsAcyclic(cfg, roots, before, rs, init); }
    }
    OneEdge(cfg, roots, before, rs, last, path[|path| - 1]);
    if path[|path| - 1].key == path[0].key { SameKey(cfg, roots, before, rs, path[0], path[|path| - 1]); }
  }

  lemma {:induction false} OneEdge(cfg: Config, roots: seq<Ref>, before: map<Key, Meta>, rs: set<Ref>, r: Ref, c: Ref)
    requires Certificate(cfg, roots, before, rs) && r in rs && Expand(cfg, r).Ok? && c in Expand(cfg, r).value
    ensures c in rs && c.count < r.count
  {
    EdgesDecrease(cfg, r, c);
  }

  lemma {:induction false} SameKey(cfg: Config, roots: seq<Ref>, before: map<Key, Meta>, rs: set<Ref>, a: Ref, b: Ref)
    requires Certificate(cfg, roots, before, rs) && a in rs && b in rs && a.key == b.key
    ensures a == b
  {
  }

  /** Everything below `r`, as far as declared counts allow. */
  ghost function Under(cfg: Config, r: Ref): set<Ref>
    decreases r.count, 0
  {
    {r} + (if Expand(cfg, r).Ok? && Sum(Expand(cfg, r).value) < r.count
           then UnderAll(cfg, Expand(cfg, r).value) else {})
  }

  ghost function UnderAll(cfg: Config, rs: seq<Ref>): set<Ref>
    decreases Sum(rs), |rs| + 1
  {
    if rs == [] then {} else Under(cfg, rs[0]) + UnderAll(cfg, rs[1..])
  }

  lemma {:induction false} UnderSize(cfg: Config, r: Ref)
    requires r.count > 0
    ensures |Under(cfg, r)| <= r.count
    decreases r.count, 0
  {
    if Expand(cfg, r).Ok? && Sum(Expand(cfg, r).value) < r.count {
      forall c | c in Expand(cfg, r).value ensures c.count > 0 { EdgesDecrease(cfg, r, c); }
      UnderAllSize(cfg, Expand(cfg, r).value);
    }
  }

  lemma {:induction false} UnderAllSize(cfg: Config, rs: seq<Ref>)
    requires forall r | r in rs :: r.count > 0
    ensures |UnderAll(cfg, rs)| <= Sum(rs)
    decreases Sum(rs), |rs| + 1
  {
    if rs != [] {
      UnderSize(cfg, rs[0]);
      UnderAllSize(cfg, rs[1..]);
    }
  }

  lemma {:induction false} UnderClosed(cfg: Config, r: Ref, x: Ref, c: Ref)
    requires r.count > 0 && x in Under(cfg, r) && Expand(cfg, x).Ok? && c in Expand(cfg, x).value
    ensures c in Under(cfg, r)
    decreases r.count, 0
  {
    var children := Expand(cfg, r).value;
    if x == r {
      EdgesDecrease(cfg, r, c);
      UnderAllCovers(cfg, children, c);
    } else {
      forall y | y in children ensures y.count > 0 { EdgesDecrease(cfg, r, y); }
      UnderAllClosed(cfg, children, x, c);
    }
  }

  lemma {:induction false} UnderAllClosed(cfg: Config, rs: seq<Ref>, x: Ref, c: Ref)
    requires forall r | r in rs :: r.count > 0
    requires x in UnderAll(cfg, rs) && Expand(cfg, x).Ok? && c in Expand(cfg, x).value
    ensures c in UnderAll(cfg, rs)
    decreases Sum(rs), |rs| + 1
  {
    if x in Under(cfg, rs[0]) {
      UnderClosed(cfg, rs[0], x, c);
    } else {
      UnderAllClosed(cfg, rs[1..], x, c);
    }
  }

  lemma {:induction false} UnderAllCovers(cfg: Config, rs: seq<Ref>, c: Ref)
    requires c in rs
    ensures c in UnderAll(cfg, rs)
  {
    if c != rs[0] { UnderAllCovers(cfg, rs[1..], c); }
  }

  /** The declared counts of the roots bound the number of distinct objects below them. */
  lemma {:induction false} CountsBoundGraph(cfg: Config, roots: seq<Ref>, met: set<Ref>)
    requires forall r | r in roots :: r.count > 0
    requires Forced(cfg, roots, met, [])
    ensures |met| <= Sum(roots) && |Keys(met)| <= Sum(roots)
  {
    UnderIsClosed(cfg, roots);
    UnderAllSize(cfg, roots);
    Fits(met, UnderAll(cfg, roots));
    KeysFit(met);
  }

  lemma {:induction false} UnderIsClosed(cfg: Config, roots: seq<Ref>)
    requires forall r | r in roots :: r.count > 0
    ensures Closed(cfg, roots, UnderAll(cfg, roots))
  {
    var under := UnderAll(cfg, roots);
    forall r | r in roots ensures r in under { UnderAllCovers(cfg, roots, r); }
    forall x, c | x in under && Expand(cfg, x).Ok? && c in Expand(cfg, x).value ensures c in under {
      UnderAllClosed(cfg, roots, x, c);
    }
  }

  lemma {:induction false} KeysFit(rs: set<Ref>)
    ensures |Keys(rs)| <= |rs|
    decreases |rs|
  {
    if rs != {} {
      var r :| r in rs;
      KeysFit(rs - {r});
      assert Keys(rs) == Keys(rs - {r}) + {r.key};
    }
  }
}
