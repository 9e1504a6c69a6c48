/**
Resuming a publication from a durable token. The token keeps digests of the head it was made
for; the choice it leads to is the one the candidate in memory would have led to.
*/
module Recovery {
  import opened Wrappers
  import opened Words
  import opened Heads
  import opened HeadChain
  import opened Protocol
  import opened SwapStep
  import opened CollectionSafety
  import opened Publication
  import opened Verification
  import opened Calls

  // ---- The digest of a publication base ----

  /** The head without what retention updates change. */
  function Normalised(h: Head): Head {
    h.(generation := if h.nextSequence < h.collectionEpoch then h.collectionEpoch else h.nextSequence,
    retentionIds := {})
  }

  /** Only valid heads are encoded; a digest stands for the encoded head. */
  function HeadDigest(h: Head): Option<Head> {
    if ValidHead(h) then Some(h) else None
  }

  function PublicationBaseDigest(h: Head): Option<Head> { HeadDigest(Normalised(h)) }

  /** The normalised head of a valid head can always be encoded. */
  lemma {:induction false} NormalisedIsValid(h: Head)
    requires ValidHead(h)
    ensures ValidHead(Normalised(h))
  {
    hide Contiguous, DistinctTransactions;
    assert Checkpointed(Normalised(h)) == Checkpointed(h);
    assert Retained(Normalised(h), Checkpointed(h)) == Retained(h, Checkpointed(h));
  }

  /** Equal base digests mean an equal publication base, and conversely. */
  lemma {:induction false} BaseDigestIsExact(a: Head, b: Head)
    requires ValidHead(a) && ValidHead(b)
    ensures PublicationBaseDigest(a).Some?
    ensures PublicationBaseDigest(a) == PublicationBaseDigest(b) <==> SamePublicationBase(a, b)
  {
    hide ValidHead;
    NormalisedIsValid(a);
    NormalisedIsValid(b);
  }

  // ---- The token ----

  /** The opaque part of a candidate. */
  datatype Work = Work(id: StorageId, transaction: TransactionId, operation: seq<byte>, objects: seq<Key>)

  datatype Token = Token(
    head: Option<Head>, base: Option<Head>, version: nat, generation: nat, nextSequence: nat, tip: Option<Body>, work: Work)

  /** The commit that publishes `work` at one position. */
  function Candidate(nextSequence: nat, tip: Option<Body>, work: Work): CommitRef {
    CommitRef(nextSequence, work.transaction, Key(work.id, Commit(work.transaction, tip, work.operation, work.objects)))
  }

  function TokenOf(source: Head, version: nat, work: Work): Token {
    Token(HeadDigest(source), PublicationBaseDigest(source), version, source.generation, source.nextSequence,
          Tip(source), work)
  }

  datatype ColdChoice = ColdRetry(current: Head) | ColdClassify | ColdWentBack | Disagrees

  /** What the token path does with the head it finds. */
  function ChooseCold(t: Token, current: Head, version: nat): ColdChoice {
    var exact := version == t.version && current.generation == t.generation && HeadDigest(current) == t.head;
    var retentionOnly := PublicationBaseDigest(current) == t.base;
    if exact || (retentionOnly && current.generation > t.generation) then
      if current.nextSequence != t.nextSequence || Tip(current) != t.tip then Disagrees
      else if Candidate(current.nextSequence, Tip(current), t.work) != Candidate(t.nextSequence, t.tip, t.work)
      then Disagrees
      else ColdRetry(current)
    else if retentionOnly then ColdWentBack
    else ColdClassify
  }

  function AsCold(choice: ViewChoice): ColdChoice {
    match choice
    case Retry(current) => ColdRetry(current)
    case Classify => ColdClassify
    case WentBack => ColdWentBack
  }

  /**
  The token path and the path in memory choose alike, for all valid heads, as long as equal
  storage versions mean equal heads. The fields kept in the token never disagree.
  */
  lemma {:induction false} ColdIsWarm(p: Prepared, work: Work, source: Head, current: Head, sourceVersion: nat, version: nat)
    requires ValidHead(source) && ValidHead(current)
    requires version == sourceVersion <==> current == source
    ensures ChooseCold(TokenOf(source, sourceVersion, work), current, version)
            == AsCold(CompatiblePublicationView(CommitJob(p), source, current))
  {
    hide ValidHead, PublicationBaseDigest;
    BaseDigestIsExact(source, current);
    assert HeadDigest(source) == Some(source) && HeadDigest(current) == Some(current);
    if SamePublicationBase(source, current) { SameTip(source, current); }
  }

  lemma {:induction false} SameTip(a: Head, b: Head)
    requires SamePublicationBase(a, b)
    ensures a.nextSequence == b.nextSequence && Tip(a) == Tip(b)
  {
  }

  // ---- Resuming ----

  /** The candidate that a token keeps. */
  function Kept(t: Token): Prepared {
    Prepared(t.generation, Candidate(t.nextSequence, t.tip, t.work))
  }

  /** The token was made for this candidate when the candidate was prepared. */
  ghost predicate Issued(s: State, t: Token) {
    && Kept(t) in s.prepared && t.generation < |s.heads|
    && t == TokenOf(s.heads[t.generation], t.generation, t.work)
  }

  /** A candidate prepared from some work has such a token, and the token keeps exactly that candidate. */
  lemma {:induction false} TokenKeepsCandidate(s: State, view: nat, work: Work)
    requires Reachable(s) && view < |s.heads|
    requires Prepared(view, Candidate(s.heads[view].nextSequence, Tip(s.heads[view]), work)) in s.prepared
    ensures var t := TokenOf(s.heads[view], view, work);
      Issued(s, t) && Kept(t) == Prepared(view, Candidate(s.heads[view].nextSequence, Tip(s.heads[view]), work))
  {
    hide Reachable, ValidHead;
    PublishedIsValid(s, view);
  }

  /** In a reachable state the version of a head is its place in the chain, and every head is valid. */
  lemma {:induction false} PublishedIsValid(s: State, i: nat)
    requires Reachable(s) && i < |s.heads|
    ensures ValidHead(s.heads[i]) && s.heads[i].generation == i
  {
    hide ValidHead;
    ReachableChain(s);
    ChainValid(s.heads, s.changes, i);
    ChainGeneration(s.heads, s.changes, i);
  }

  /** So the choice of the token path is the warm one, and neither error can arise. */
  lemma {:induction false} TokenChoosesWarm(s: State, t: Token)
    requires Reachable(s) && s.heads != [] && Issued(s, t)
    ensures ChooseCold(t, Current(s), Now(s))
            == AsCold(CompatiblePublicationView(CommitJob(Kept(t)), s.heads[t.generation], Current(s)))
    ensures !ChooseCold(t, Current(s), Now(s)).ColdWentBack? && !ChooseCold(t, Current(s), Now(s)).Disagrees?
  {
    hide ValidHead, Reachable, ChooseCold, TokenOf;
    PublishedIsValid(s, t.generation);
    PublishedIsValid(s, Now(s));
    ColdIsWarm(Kept(t), t.work, s.heads[t.generation], Current(s), t.generation, Now(s));
  }

  lemma {:induction false} FewerAttempts(s: State, p: Prepared, fewer: set<Cas>, more: set<Cas>, out: CommitOutcome)
    requires s.heads != [] && fewer <= more && CommitSound(s, p, more, out)
    ensures CommitSound(s, p, fewer, out)
  {
  }

  /**
  Resumes from the token alone, with the promises of the call that kept the candidate. A
  candidate that may still be published is rebased on the head that was found, and its graph is
  walked again.
  */
  method Resume(w: World, t: Token, size: Key -> nat) returns (out: CommitOutcome, ghost mine: set<Cas>)
    requires w.Valid() && Issued(w.s, t)
    modifies w
    ensures w.Valid() && Leads(old(w.s), w.s)
    ensures CommitSound(w.s, Kept(t), old(w.s).cas + mine, out)
    ensures CommitExcused(w.s, Kept(t), size, false, w.faults > old(w.faults), out)
    ensures out.StillOpen? ==> w.faults > old(w.faults)
    ensures Unsupported(Kept(t), mine, out) || Stored(w.s, Kept(t).commit.key)
  {
    hide Reachable, Leads, ChooseCold, TokenOf, Candidate, Stored;
    mine := {};
    var p := Kept(t);
    var loaded := w.Load();
    LeadsExtends(old(w.s), w.s);
    if loaded.None? {
      return StillOpen, mine;
    }
    var current := loaded.value;
    TokenChoosesWarm(w.s, t);
    match ChooseCold(t, current, Now(w.s)) {
      case ColdRetry(_) =>
        ghost var read := w.s;
        out, mine := ResolveFrom(w, p, current, false, size);
        LeadsOn(old(w.s), read, w.s);
        FewerAttempts(w.s, p, old(w.s).cas + mine, read.cas + mine, out);
      case ColdClassify =>
        ghost var read := w.s;
        out := ClassifyVerified(w, p, current, false, size, old(w.s).cas);
        LeadsOn(old(w.s), read, w.s);
      case ColdWentBack =>
        assert false; // "head version changed without a monotonic head change"
      case Disagrees =>
        assert false; // "recovery token source fields disagree"
    }
  }
}
