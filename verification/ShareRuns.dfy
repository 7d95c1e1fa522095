/** Whole runs of share creations and revocations, with a fault anywhere in any call. */
module ShareRuns {
  import opened CloudPaths
  import opened DataPath
  import opened Envelope
  import opened ShareInvariant
  import opened ShareState
  import opened Uuid

  // ---------------------------------------------------------------- history

  lemma NewVersionEncrypts(w: World, req: Request, file: VaultFile, d: Draws)
    requires file.Valid() && d.Cover(file)
    ensures NewVersion(w, req, file, d).Encrypts(w, Hyphenated(d.fileShareId))
  {
    var snapshot := NewSnapshot(w, req, file, d);
    forall i | 0 <= i < |snapshot.chunkUuids|
      ensures IsUuidV4Str(snapshot.chunkUuids[i])
    {
      V4Text(d.blobNames[i]);
    }
    UnwrapUndoesWrap(w.p, d.shareKey, d.shareFileId, w.kek, d.wrapNonce);
  }

  lemma SentSurvives(w: World, versions: Versions, versions': Versions, sent: seq<Sent>)
    requires SentOk(w, versions, sent)
    requires forall f :: f in versions ==> f in versions' && versions'[f] == versions[f]
    ensures SentOk(w, versions', sent)
  {
  }

  lemma SentAppended(w: World, versions: Versions, sent: seq<Sent>, x: Sent)
    requires SentOk(w, versions, sent)
    requires x.fileShareId in versions && IsIdText(x.packageId) && Genuine(w, versions[x.fileShareId], x)
    ensures SentOk(w, versions, sent + [x])
  {
  }

  lemma VersionsEncryptExtended(w: World, versions: Versions, f: string, v: SharedVersion)
    requires VersionsEncrypt(w, versions) && v.Encrypts(w, f)
    ensures VersionsEncrypt(w, versions[f := v])
  {
  }

  lemma FreshKeepsHistory(w: World, s: State, req: Request, file: VaultFile, d: Draws)
    requires Inv(w, s) && file.Valid() && d.Cover(file) && d.Fresh(s.used)
    ensures var versions := s.versions[Hyphenated(d.fileShareId) := NewVersion(w, req, file, d)];
            VersionsEncrypt(w, versions) && SentOk(w, versions, s.sent)
  {
    var f, v := Hyphenated(d.fileShareId), NewVersion(w, req, file, d);
    NoActiveRowKnows(s, f);
    NewVersionEncrypts(w, req, file, d);
    VersionsEncryptExtended(w, s.versions, f, v);
    SentSurvives(w, s.versions, s.versions[f := v], s.sent);
  }

  /** History after the second half of `create_share`. */
  lemma TailKeepsHistory(w: World, s: State, req: Request, f: string, d: Draws, tail: Tail)
    requires SentOk(w, s.versions, s.sent)
    requires tail.Packaged? ==>
               f in s.versions && Genuine(w, s.versions[f], NewSent(req, f, d, tail.delivery, tail.wire))
    ensures AfterTail(s, req, f, d, tail).versions == s.versions
    ensures SentOk(w, s.versions, AfterTail(s, req, f, d, tail).sent)
  {
    if tail.Packaged? {
      SentAppended(w, s.versions, s.sent, NewSent(req, f, d, tail.delivery, tail.wire));
    }
  }

  lemma EventKeepsHistory(w: World, s: State, e: Event)
    requires Inv(w, s) && Enabled(s, e) && Seals(w, s, e)
    ensures VersionsEncrypt(w, Apply(w, s, e).versions)
    ensures SentOk(w, Apply(w, s, e).versions, Apply(w, s, e).sent)
  {
    hide VersionsEncrypt, SentOk, Genuine, NewVersion, Hyphenated, AllBlobs, StoresOk;
    match e
    case ShareFresh(req, file, d, SnapshotStored(tail)) =>
      FreshKeepsHistory(w, s, req, file, d);
      TailKeepsHistory(w, AfterSnapshot(w, s, req, file, d), req, Hyphenated(d.fileShareId), d, tail);
    case ShareFresh(req, file, d, _) =>
      FreshKeepsHistory(w, s, req, file, d);
    case ShareAgain(req, f, d, tail) =>
      TailKeepsHistory(w, s.(used := s.used + {Hyphenated(d.shareId)}), req, f, d, tail);
    case _ =>
  }

  /** One call takes state `s` to state `t`. */
  ghost predicate Step(w: World, s: State, e: Event, t: State) {
    Enabled(s, e) && Seals(w, s, e) && t == Apply(w, s, e)
  }

  /** Every call, however far it gets, keeps the invariant. */
  lemma StepKeepsInv(w: World, s: State, e: Event, t: State)
    requires Inv(w, s) && Step(w, s, e, t)
    ensures Inv(w, t)
  {
    EventKeepsStores(w, s, e);
    EventKeepsHistory(w, s, e);
  }

  // ---------------------------------------------------------------- runs

  /** Each event is enabled where it happens. */
  ghost predicate ValidRun(w: World, s: State, events: seq<Event>)
    decreases |events|, 0
  {
    events == [] ||
    var before, last := events[..|events| - 1], events[|events| - 1];
    ValidRun(w, s, before) && Enabled(After(w, s, before), last) && Seals(w, After(w, s, before), last)
  }

  ghost function After(w: World, s: State, events: seq<Event>): State
    requires ValidRun(w, s, events)
    decreases |events|, 1
  {
    if events == [] then s else Apply(w, After(w, s, events[..|events| - 1]), events[|events| - 1])
  }

  /** A vault that has shared nothing yet; the cloud may hold anything outside share prefixes. */
  ghost predicate Untouched(s: State) {
    && s.shares == map[] && s.snapshots == map[] && s.versions == map[]
    && s.used == {} && s.sent == [] && s.spoiled == {}
    && forall path, f :: path in s.cloud && IsIdText(f) ==> !(SharedPrefix(f) <= path)
  }

  /** Every run, whatever faults stop its calls, keeps the invariant. */
  lemma {:induction false} RunKeepsInv(w: World, s: State, events: seq<Event>)
    requires Inv(w, s) && ValidRun(w, s, events)
    ensures Inv(w, After(w, s, events))
    decreases |events|
  {
    if events != [] {
      var before, last := events[..|events| - 1], events[|events| - 1];
      RunKeepsInv(w, s, before);
      StepKeepsInv(w, After(w, s, before), last, After(w, s, events));
    }
  }

  lemma UntouchedInv(w: World, s: State)
    requires Untouched(s)
    ensures Inv(w, s)
  {
  }

  /** Some run from an untouched vault ends here. */
  ghost predicate Reachable(w: World, t: State) {
    exists s, events :: Untouched(s) && ValidRun(w, s, events) && After(w, s, events) == t
  }

  lemma UntouchedReachable(w: World, s: State)
    requires Untouched(s)
    ensures Reachable(w, s)
  {
    assert After(w, s, []) == s;
  }

  lemma StepReachable(w: World, t: State, e: Event)
    requires Reachable(w, t) && Enabled(t, e) && Seals(w, t, e)
    ensures Reachable(w, Apply(w, t, e))
  {
    var s, events :| Untouched(s) && ValidRun(w, s, events) && After(w, s, events) == t;
    var longer := events + [e];
    assert longer[..|longer| - 1] == events;
    assert After(w, s, longer) == Apply(w, t, e);
  }

  lemma ReachableInv(w: World, t: State)
    requires Reachable(w, t)
    ensures Inv(w, t)
  {
    var s, events :| Untouched(s) && ValidRun(w, s, events) && After(w, s, events) == t;
    UntouchedInv(w, s);
    RunKeepsInv(w, s, events);
  }

  lemma {:induction false} PrefixValid(w: World, s: State, events: seq<Event>, n: nat)
    requires ValidRun(w, s, events) && n <= |events|
    ensures ValidRun(w, s, events[..n])
    decreases |events|
  {
    if n == |events| {
      assert events[..n] == events;
    } else {
      PrefixValid(w, s, events[..|events| - 1], n);
      assert events[..|events| - 1][..n] == events[..n];
    }
  }

  /** In every reachable state each active share has its snapshot, the active shares of one file carry
      one `file_share_id`, and rows with one `file_share_id` belong to one file. */
  lemma StoresInStep(w: World, s: State, events: seq<Event>)
    requires Untouched(s) && ValidRun(w, s, events)
    ensures var t := After(w, s, events);
            && (forall id :: Active(t.shares, id) ==> t.shares[id].fileShareId in t.snapshots)
            && (forall a, b ::
                  Active(t.shares, a) && Active(t.shares, b) && t.shares[a].fileId == t.shares[b].fileId ==>
                  t.shares[a].fileShareId == t.shares[b].fileShareId)
            && (forall a, b :: a in t.shares && b in t.shares && t.shares[a].fileShareId == t.shares[b].fileShareId ==>
                  t.shares[a].fileId == t.shares[b].fileId)
  {
    UntouchedInv(w, s);
    RunKeepsInv(w, s, events);
    var t := After(w, s, events);
    assert forall a :: a in t.shares ==> RowOk(t.shares[a], a, t.versions, t.used);
  }

  // ---------------------------------------------------------------- what calls leave alone

  /** A path and its content, or its absence. */
  ghost predicate SameAt(a: Cloud, b: Cloud, path: Path) {
    (path in a <==> path in b) && (path in a ==> a[path] == b[path])
  }

  /** The share whose prefix an event may write or delete under. */
  ghost function Touched(s: State, e: Event): string
    requires Enabled(s, e)
  {
    match e
    case Idle => ""
    case ShareFresh(_, _, d, _) => Hyphenated(d.fileShareId)
    case ShareAgain(_, f, _, _) => f
    case RevokeOne(_, _, _, _) => ""
    case RevokeLast(id, _, _, _) => s.shares[id].fileShareId
  }

  lemma TailTouches(s: State, req: Request, f: string, d: Draws, tail: Tail, path: Path)
    requires TailEnabled(f, tail) && !(SharedPrefix(f) <= path)
    ensures SameAt(s.cloud, AfterTail(s, req, f, d, tail).cloud, path)
  {
    if path in tail.placeholders {
      ReceiptUnder(f, path);
    }
  }

  lemma UploadTouches(w: World, s: State, req: Request, file: VaultFile, d: Draws, path: Path)
    requires file.Valid() && d.Cover(file) && d.Fresh(s.used)
    requires !(SharedPrefix(Hyphenated(d.fileShareId)) <= path)
    ensures SameAt(s.cloud, AfterUpload(w, s, req, file, d).cloud, path)
  {
    var f, v := Hyphenated(d.fileShareId), NewVersion(w, req, file, d);
    NewVersionShaped(w, req, file, d, s.used);
    BlobsAtUnder(f, v, Below(|v.blobs|));
  }

  /** An event changes nothing outside the prefix of the one share it is about. */
  lemma EventTouchesOnePrefix(w: World, s: State, e: Event, path: Path)
    requires Enabled(s, e) && !(SharedPrefix(Touched(s, e)) <= path)
    ensures SameAt(s.cloud, Apply(w, s, e).cloud, path)
  {
    hide NewVersion, Hyphenated, AllBlobs, SharedPrefix, ChunkCount;
    match e
    case ShareFresh(req, file, d, SnapshotStored(tail)) =>
      UploadTouches(w, s, req, file, d, path);
      TailTouches(AfterSnapshot(w, s, req, file, d), req, Hyphenated(d.fileShareId), d, tail, path);
    case ShareFresh(req, file, d, _) =>
      UploadTouches(w, s, req, file, d, path);
    case ShareAgain(req, f, d, tail) =>
      TailTouches(s.(used := s.used + {Hyphenated(d.shareId)}), req, f, d, tail, path);
    case RevokeLast(id, _, listing, progress) =>
      DeletedUnderPrefix(listing, s.cloud, SharedPrefix(s.shares[id].fileShareId), progress);
    case _ =>
  }

  /** No run of shares and revocations changes a vault blob. */
  lemma {:induction false} VaultBlobsUntouched(w: World, s: State, events: seq<Event>, path: Path)
    requires ValidRun(w, s, events) && VAULT_PREFIX <= path
    ensures SameAt(s.cloud, After(w, s, events).cloud, path)
    decreases |events|
  {
    if events != [] {
      var before, last := events[..|events| - 1], events[|events| - 1];
      VaultBlobsUntouched(w, s, before, path);
      VaultNotShared(Touched(After(w, s, before), last), path);
      EventTouchesOnePrefix(w, After(w, s, before), last, path);
    }
  }

  /** A call about one share never removes or changes a blob of another. */
  lemma OtherSharesUntouched(w: World, s: State, e: Event, g: string, name: string)
    requires StoresOk(s) && Enabled(s, e)
    requires IsIdText(g) && g != Touched(s, e)
    ensures SameAt(s.cloud, Apply(w, s, e).cloud, BlobPath(g, name))
  {
    var path, f := BlobPath(g, name), Touched(s, e);
    BlobPathUnder(g, name);
    if e.Idle? || e.RevokeOne? {
    } else {
      assert IsIdText(f) by {
        if e.ShareAgain? {
          var id :| Active(s.shares, id) && s.shares[id].fileId == e.req.fileId && s.shares[id].fileShareId == f;
          assert RowOk(s.shares[id], id, s.versions, s.used);
        } else if e.RevokeLast? {
          assert RowOk(s.shares[e.shareId], e.shareId, s.versions, s.used);
        }
      }
      if SharedPrefix(f) <= path {
        SharedPrefixesDisjoint(f, g, path);
      }
      EventTouchesOnePrefix(w, s, e, path);
    }
  }

  // ---------------------------------------------------------------- revocation and retry

  /** What one fault-free revocation leaves in the stores: the row marked and, for the last recipient,
      no blob under the prefix and no snapshot. */
  ghost function RevokedStores(s: State, id: string, now: int): (Shares, Snapshots, Cloud)
    requires id in s.shares
  {
    var f := s.shares[id].fileShareId;
    if HasSibling(s.shares, id) then (Revoked(s.shares, id, now), s.snapshots, s.cloud)
    else (Revoked(s.shares, id, now), s.snapshots - {f},
          map path | path in s.cloud && !(SharedPrefix(f) < path) :: s.cloud[path])
  }

  /** A last-recipient attempt that failed before the row was marked. */
  ghost predicate FailedAttempt(e: Event, id: string) {
    e.RevokeLast? && e.shareId == id && !RowDone(e.progress)
  }

  lemma FinishedMeetsSpec(w: World, s: State, e: Event)
    requires Enabled(s, e) && e.RevokeLast? && e.progress.Finished?
    ensures var t := Apply(w, s, e);
            (t.shares, t.snapshots, t.cloud) == RevokedStores(s, e.shareId, e.now)
  {
    assert Apply(w, s, e).cloud == RevokedStores(s, e.shareId, e.now).2;
  }

  /** A failed attempt only takes blobs of the share away, among them all before the failed index. */
  lemma FailedAttemptShrinks(w: World, s: State, e: Event, now: int)
    requires Enabled(s, e) && e.RevokeLast? && FailedAttempt(e, e.shareId)
    ensures var t := Apply(w, s, e);
            && t.shares == s.shares && t.snapshots == s.snapshots
            && t.cloud.Keys <= s.cloud.Keys
            && (e.progress.DeleteFailed? ==> forall i :: 0 <= i < e.progress.index ==> e.listing[i] !in t.cloud)
            && RevokedStores(t, e.shareId, now) == RevokedStores(s, e.shareId, now)
  {
    var t, f := Apply(w, s, e), s.shares[e.shareId].fileShareId;
    DeletedUnderPrefix(e.listing, s.cloud, SharedPrefix(f), e.progress);
    assert RevokedStores(t, e.shareId, now).2 == RevokedStores(s, e.shareId, now).2;
  }

  /** Retry converges: after any number of failed attempts the row is still active, no blob was added,
      and the first attempt without a fault reaches the stores that a single fault-free revocation of the
      original state reaches. */
  lemma {:induction false} RetryConverges(w: World, s: State, attempts: seq<Event>, id: string, last: Event)
    requires ValidRun(w, s, attempts + [last]) && Active(s.shares, id)
    requires forall k :: 0 <= k < |attempts| ==> FailedAttempt(attempts[k], id)
    requires last.RevokeLast? && last.shareId == id && last.progress.Finished?
    ensures ValidRun(w, s, attempts) && Active(After(w, s, attempts).shares, id)
    ensures After(w, s, attempts).cloud.Keys <= s.cloud.Keys
    ensures var t := After(w, s, attempts + [last]);
            (t.shares, t.snapshots, t.cloud) == RevokedStores(s, id, last.now)
  {
    assert (attempts + [last])[..|attempts|] == attempts;
    AttemptsShrink(w, s, attempts, id, last.now);
    FinishedMeetsSpec(w, After(w, s, attempts), last);
  }

  lemma {:induction false} AttemptsShrink(w: World, s: State, attempts: seq<Event>, id: string, now: int)
    requires ValidRun(w, s, attempts) && id in s.shares
    requires forall k :: 0 <= k < |attempts| ==> FailedAttempt(attempts[k], id)
    ensures var t := After(w, s, attempts);
            && t.shares == s.shares && t.snapshots == s.snapshots && t.cloud.Keys <= s.cloud.Keys
            && RevokedStores(t, id, now) == RevokedStores(s, id, now)
    decreases |attempts|
  {
    if attempts != [] {
      var before, last := attempts[..|attempts| - 1], attempts[|attempts| - 1];
      AttemptsShrink(w, s, before, id, now);
      FailedAttemptShrinks(w, After(w, s, before), last, now);
    }
  }

  /** A version all of whose rows are revoked. */
  ghost predicate Dead(s: State, f: string) {
    f in s.versions && forall id :: Active(s.shares, id) ==> s.shares[id].fileShareId != f
  }

  /** Nothing new refers to version `g`. */
  ghost predicate LeavesAlone(s: State, t: State, g: string) {
    && Dead(t, g)
    && (g in t.snapshots <==> g in s.snapshots)
    && s.sent <= t.sent
    && (forall k :: |s.sent| <= k < |t.sent| ==> t.sent[k].fileShareId != g)
  }

  lemma LeavesAloneTransitive(s: State, t: State, u: State, g: string)
    requires LeavesAlone(s, t, g) && LeavesAlone(t, u, g)
    ensures LeavesAlone(s, u, g)
  {
    assert forall k :: 0 <= k < |t.sent| ==> u.sent[k] == t.sent[k];
  }

  lemma TailLeavesAlone(s: State, req: Request, f: string, d: Draws, tail: Tail, g: string)
    requires Dead(s, g) && f != g
    ensures LeavesAlone(s, AfterTail(s, req, f, d, tail), g)
  {
    var t := AfterTail(s, req, f, d, tail);
    assert forall id :: Active(t.shares, id) ==> id == Hyphenated(d.shareId) || Active(s.shares, id);
  }

  lemma UploadLeavesAlone(w: World, s: State, req: Request, file: VaultFile, d: Draws, g: string)
    requires StoresOk(s) && file.Valid() && d.Cover(file) && d.Fresh(s.used) && Dead(s, g)
    ensures Hyphenated(d.fileShareId) != g
    ensures LeavesAlone(s, AfterUpload(w, s, req, file, d), g)
    ensures LeavesAlone(s, AfterSnapshot(w, s, req, file, d), g)
  {
    NoActiveRowKnows(s, Hyphenated(d.fileShareId));
  }

  lemma FreshLeavesAlone(w: World, s: State, e: Event, g: string)
    requires StoresOk(s) && Enabled(s, e) && Dead(s, g) && e.ShareFresh?
    ensures LeavesAlone(s, Apply(w, s, e), g)
  {
    var req, file, d := e.req, e.file, e.draws;
    UploadLeavesAlone(w, s, req, file, d, g);
    if e.stage.SnapshotStored? {
      var t := AfterSnapshot(w, s, req, file, d);
      TailLeavesAlone(t, req, Hyphenated(d.fileShareId), d, e.stage.tail, g);
      LeavesAloneTransitive(s, t, Apply(w, s, e), g);
    }
  }

  lemma RevokedLeavesAlone(s: State, t: State, id: string, now: int, g: string)
    requires StoresOk(s) && Dead(s, g) && id in s.shares
    requires t.shares == s.shares || t.shares == Revoked(s.shares, id, now)
    requires t.versions == s.versions && t.sent == s.sent && (g in t.snapshots <==> g in s.snapshots)
    ensures LeavesAlone(s, t, g)
  {
    RowRevoked(s.shares, s.versions, s.used, id, now);
  }

  lemma EventLeavesAlone(w: World, s: State, e: Event, g: string)
    requires StoresOk(s) && Enabled(s, e) && Dead(s, g)
    ensures LeavesAlone(s, Apply(w, s, e), g)
  {
    hide StoresOk, NewVersion, Hyphenated, AllBlobs, SharedPrefix, ChunkCount;
    match e
    case Idle =>
    case ShareFresh(_, _, _, _) => FreshLeavesAlone(w, s, e, g);
    case ShareAgain(req, f, d, tail) =>
      TailLeavesAlone(s.(used := s.used + {Hyphenated(d.shareId)}), req, f, d, tail, g);
    case RevokeOne(id, now, _, _) => RevokedLeavesAlone(s, Apply(w, s, e), id, now, g);
    case RevokeLast(id, now, _, _) => RevokedLeavesAlone(s, Apply(w, s, e), id, now, g);
  }

  /** A version whose rows are all revoked stays so in every continuation: it never gets a row or a
      package again. Its snapshot also stays as it was left, so a snapshot whose deletion failed after
      the row was marked is never deleted by a retry. */
  lemma {:induction false} DeadStaysDead(w: World, s: State, events: seq<Event>, g: string)
    requires Inv(w, s) && ValidRun(w, s, events) && Dead(s, g)
    ensures LeavesAlone(s, After(w, s, events), g)
    decreases |events|
  {
    if events != [] {
      var before, last := events[..|events| - 1], events[|events| - 1];
      DeadStaysDead(w, s, before, g);
      RunKeepsInv(w, s, before);
      EventLeavesAlone(w, After(w, s, before), last, g);
      LeavesAloneTransitive(s, After(w, s, before), After(w, s, events), g);
    }
  }
}
