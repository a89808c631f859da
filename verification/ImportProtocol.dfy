/** The preview/commit protocol: single-use, expiring previews bound to a user, a file and the rows shown, with commits
    of several requests interleaved. Hashes of files and payloads are injective, so previews hold the contents. */
module ImportProtocol {
  import opened Outcomes
  import opened ImportPreview

  datatype Preview = Preview(
    owner: string, mode: string, source: string, file: string, payload: Response, counts: Counts,
    createdAt: int, expiresAt: int, consumedAt: Option<int>)

  const STANDARD_MODE := "standard"
  /** Fifteen minutes, in seconds. */
  const PREVIEW_TTL := 900

  type Previews = map<string, Preview>

  function NewPreview(user: string, mode: string, source: string, file: string, payload: Response, now: int): Preview {
    Preview(user, mode, source, file, payload, CountsOf(payload), now, now + PREVIEW_TTL, None)
  }

  /** A preview row as its owner sees it. */
  function Find(previews: Previews, id: string, user: string): Option<Preview> {
    if id in previews && previews[id].owner == user then Some(previews[id]) else None
  }

  /** The checks made before the claim, in order. */
  function Checks(found: Option<Preview>, mode: string, source: string, file: string, payload: Response, now: int): Result<()> {
    if found.None? then Refused(NOT_FOUND)
    else if found.value.consumedAt.Some? then Refused(CONFLICT)
    else if now >= found.value.expiresAt then Refused(GONE)
    else if found.value.mode != mode || found.value.source != source then Refused(CONFLICT)
    else if found.value.file != file then Refused(CONFLICT)
    else if found.value.counts != CountsOf(payload) then Refused(CONFLICT)
    else if found.value.payload != payload then Refused(CONFLICT)
    else Ok(())
  }

  /** The guarded update: it changes the row only if it is the user's and unconsumed, and says whether it did. */
  function Consume(previews: Previews, id: string, user: string, at: int): Option<Previews> {
    if id in previews && previews[id].owner == user && previews[id].consumedAt.None?
    then Some(previews[id := previews[id].(consumedAt := Some(at))]) else None
  }

  class ImportPreviewBindingService {
    var previews: Previews

    constructor ()
      ensures previews == map[]
    {
      previews := map[];
    }

    method CreatePreview(id: string, mode: string, source: string, file: string, payload: Response, user: string, now: int)
      requires id !in previews
      modifies this
      ensures previews == old(previews)[id := NewPreview(user, mode, source, file, payload, now)]
    {
      previews := previews[id := NewPreview(user, mode, source, file, payload, now)];
    }

    method ClaimUnconsumed(id: string, user: string, at: int) returns (claimed: bool)
      modifies this
      ensures claimed == Consume(old(previews), id, user, at).Some?
      ensures previews == Consume(old(previews), id, user, at).GetOr(old(previews))
    {
      if id !in previews || previews[id].owner != user || previews[id].consumedAt.Some? {
        return false;
      }
      previews := previews[id := previews[id].(consumedAt := Some(at))];
      return true;
    }

    method ValidateAndClaimCommit(id: string, mode: string, source: string, file: string, payload: Response, user: string,
                                  now: int) returns (r: Result<()>)
      modifies this
      ensures r == Checks(Find(old(previews), id, user), mode, source, file, payload, now)
      ensures r.Ok? ==> Consume(old(previews), id, user, now) == Some(previews)
      ensures r.Refused? ==> previews == old(previews)
    {
      var found := Find(previews, id, user);
      if found.None? {
        return Refused(NOT_FOUND);
      }
      var preview := found.value;
      if preview.consumedAt.Some? {
        return Refused(CONFLICT);
      }
      if now >= preview.expiresAt {
        return Refused(GONE);
      }
      if preview.mode != mode || preview.source != source || preview.file != file {
        return Refused(CONFLICT);
      }
      if preview.counts != CountsOf(payload) || preview.payload != payload {
        return Refused(CONFLICT);
      }
      var claimed := ClaimUnconsumed(id, user, now);
      if !claimed {
        return Refused(CONFLICT);
      }
      return Ok(());
    }
  }

  // ---------------------------------------------------------------- interleaved requests

  /** How far a commit request has come: rows built, preview checked, or preview claimed but not committed. */
  datatype Phase = Built | Checked(at: int) | Claimed(at: int)

  datatype Request = Request(user: string, preview: string, source: string, file: string, rows: Response, phase: Phase)

  /** A committed import. */
  datatype Success = Success(
    preview: string, user: string, source: string, file: string, at: int,
    transactions: seq<Row>, events: seq<Row>)

  /** Committed tables, the clock, the requests in flight, and the imports that have succeeded. */
  datatype World = World(
    now: int, stores: map<string, Store>, previews: Previews, requests: map<nat, Request>, successes: seq<Success>)

  const START := World(0, map[], map[], map[], [])

  /** Rows shown or built are arbitrary: whatever the tables and the rate provider answered at the time. */
  datatype Action =
    | Tick(to: int)
    | Show(id: string, user: string, source: string, file: string, rows: Response)
    | Begin(req: nat, user: string, preview: string, source: string, file: string, rows: Response)
    | Check(req: nat)
    | Claim(req: nat)
    | Commit(req: nat)
    | Abort(req: nat)
    | Change(user: string, store: Store)

  function StoreOf(w: World, user: string): Store {
    if user in w.stores then w.stores[user] else EMPTY_STORE
  }

  /** Another request holds the lock on the preview's row. */
  predicate IsLocked(w: World, preview: string, req: nat) {
    exists r | r in w.requests :: r != req && w.requests[r].preview == preview && w.requests[r].phase.Claimed?
  }

  function Drop(w: World, req: nat): World {
    w.(requests := w.requests - {req})
  }

  function CheckRequest(w: World, req: nat): World
    requires req in w.requests
  {
    var r := w.requests[req];
    match Checks(Find(w.previews, r.preview, r.user), STANDARD_MODE, r.source, r.file, r.rows, w.now)
    case Ok(_) => w.(requests := w.requests[req := r.(phase := Checked(w.now))])
    case Refused(_) => Drop(w, req)
  }

  /** The update waits while another claim is undecided, and then sees what that one committed. */
  function ClaimPreview(w: World, req: nat): World
    requires req in w.requests && w.requests[req].phase.Checked?
  {
    var r := w.requests[req];
    if IsLocked(w, r.preview, req) then w
    else if Consume(w.previews, r.preview, r.user, r.phase.at).None? then Drop(w, req)
    else w.(requests := w.requests[req := r.(phase := Claimed(r.phase.at))])
  }

  function CommitImport(w: World, req: nat): World
    requires req in w.requests && w.requests[req].phase.Claimed?
  {
    var r := w.requests[req];
    match CommitStep(StoreOf(w, r.user), r.rows)
    case Refused(_) => Drop(w, req)
    case Ok(store) =>
      Drop(w, req).(
        stores := w.stores[r.user := store],
        previews := Consume(w.previews, r.preview, r.user, r.phase.at).GetOr(w.previews),
        successes := w.successes + [Success(r.preview, r.user, r.source, r.file, r.phase.at,
                                            NewRows(r.rows.transactions), NewRows(r.rows.events))])
  }

  /** One step of some request or of the surroundings; a step that is not possible does nothing. Other features may
      leave any tables that the unique indexes allow. */
  function Act(w: World, a: Action): World {
    match a
    case Tick(to) => if to >= w.now then w.(now := to) else w
    case Show(id, user, source, file, rows) =>
      if id in w.previews then w
      else w.(previews := w.previews[id := NewPreview(user, STANDARD_MODE, source, file, rows, w.now)])
    case Begin(req, user, preview, source, file, rows) =>
      if req in w.requests then w
      else w.(requests := w.requests[req := Request(user, preview, source, file, rows, Built)])
    case Check(req) => if req in w.requests && w.requests[req].phase.Built? then CheckRequest(w, req) else w
    case Claim(req) => if req in w.requests && w.requests[req].phase.Checked? then ClaimPreview(w, req) else w
    case Commit(req) => if req in w.requests && w.requests[req].phase.Claimed? then CommitImport(w, req) else w
    case Abort(req) => Drop(w, req)
    case Change(user, store) => if StoreIsUnique(store) then w.(stores := w.stores[user := store]) else w
  }

  function Run(w: World, trace: seq<Action>): World {
    if |trace| == 0 then w else Act(Run(w, trace[..|trace| - 1]), trace[|trace| - 1])
  }

  // ---------------------------------------------------------------- what every interleaving keeps

  /** A request past its checks is its preview's owner with the same mode, source, file and rows, before expiry. */
  ghost predicate RequestIsBound(w: World, req: nat)
    requires req in w.requests
  {
    var r := w.requests[req];
    !r.phase.Built? ==>
      && r.preview in w.previews
      && var p := w.previews[r.preview];
      && p.owner == r.user && p.mode == STANDARD_MODE && p.source == r.source && p.file == r.file && p.payload == r.rows
      && r.phase.at < p.expiresAt && p.createdAt <= r.phase.at <= w.now
      && (r.phase.Claimed? ==> p.consumedAt.None?)
  }

  ghost predicate ClaimsAreExclusive(w: World) {
    forall q, r ::
      (q in w.requests && r in w.requests && q != r && w.requests[q].phase.Claimed? && w.requests[r].phase.Claimed?)
      ==> w.requests[q].preview != w.requests[r].preview
  }

  /** A success was made by the owner before expiry from the same source and file, and inserted exactly the
      non-duplicate rows that its preview had shown. */
  ghost predicate SuccessIsFaithful(previews: Previews, s: Success) {
    && s.preview in previews
    && var p := previews[s.preview];
    && p.owner == s.user && p.mode == STANDARD_MODE && p.source == s.source && p.file == s.file
    && p.consumedAt == Some(s.at) && p.createdAt <= s.at < p.expiresAt == p.createdAt + PREVIEW_TTL
    && s.transactions == NewRows(p.payload.transactions) && s.events == NewRows(p.payload.events)
  }

  ghost predicate SuccessesAreFaithful(w: World) {
    && (forall i :: 0 <= i < |w.successes| ==> SuccessIsFaithful(w.previews, w.successes[i]))
    && (forall i, j :: 0 <= i < j < |w.successes| ==> w.successes[i].preview != w.successes[j].preview)
  }

  ghost predicate ConsumedBySuccess(w: World, id: string)
    requires id in w.previews
  {
    w.previews[id].consumedAt.Some? ==> exists i :: 0 <= i < |w.successes| && w.successes[i].preview == id
  }

  ghost predicate PreviewsStand(w: World) {
    forall id :: id in w.previews ==>
      ConsumedBySuccess(w, id) && w.previews[id].expiresAt == w.previews[id].createdAt + PREVIEW_TTL
      && w.previews[id].createdAt <= w.now
  }

  ghost predicate StoresAreUnique(w: World) {
    forall user :: user in w.stores ==> StoreIsUnique(w.stores[user])
  }

  ghost predicate RequestsAreBound(w: World) {
    forall req :: req in w.requests ==> RequestIsBound(w, req)
  }

  ghost predicate Safe(w: World) {
    StoresAreUnique(w) && RequestsAreBound(w) && ClaimsAreExclusive(w) && SuccessesAreFaithful(w) && PreviewsStand(w)
  }

  lemma {:induction false} DropIsSafe(w: World, req: nat)
    requires Safe(w)
    ensures Safe(Drop(w, req))
  {
  }

  lemma {:induction false} ShowIsSafe(w: World, id: string, p: Preview)
    requires Safe(w) && id !in w.previews && p.consumedAt.None? && p.expiresAt == p.createdAt + PREVIEW_TTL
    requires p.createdAt <= w.now
    ensures Safe(w.(previews := w.previews[id := p]))
  {
  }

  /** Moving one request on keeps the world safe when the request stays bound and its claim is the only one. */
  lemma {:induction false} AdvanceIsSafe(w: World, req: nat, r: Request)
    requires Safe(w) && RequestIsBound(w.(requests := w.requests[req := r]), req)
    requires r.phase.Claimed? ==> !IsLocked(w, r.preview, req)
    ensures Safe(w.(requests := w.requests[req := r]))
  {
  }

  lemma {:induction false} CheckIsSafe(w: World, req: nat)
    requires Safe(w) && req in w.requests && w.requests[req].phase.Built?
    ensures Safe(CheckRequest(w, req))
  {
  }

  lemma {:induction false} ClaimIsSafe(w: World, req: nat)
    requires Safe(w) && req in w.requests && w.requests[req].phase.Checked?
    ensures Safe(ClaimPreview(w, req))
  {
  }

  /** A commit that is not refused. */
  ghost predicate Succeeds(w: World, req: nat) {
    && req in w.requests && w.requests[req].phase.Claimed?
    && CommitStep(StoreOf(w, w.requests[req].user), w.requests[req].rows).Ok?
  }

  lemma {:induction false} CommitStoresTheRows(store: Store, rows: Response)
    requires StoreIsUnique(store) && CommitStep(store, rows).Ok?
    ensures StoreIsUnique(CommitStep(store, rows).value)
    ensures CommitStep(store, rows).value.transactions == store.transactions + NewRows(rows.transactions)
    ensures CommitStep(store, rows).value.events == store.events + NewRows(rows.events)
  {
    InsertsWhenFresh(store.transactions, NewRows(rows.transactions));
    InsertsWhenFresh(store.events, NewRows(rows.events));
  }

  lemma {:induction false} CommittedStoreIsUnique(w: World, req: nat)
    requires StoresAreUnique(w) && Succeeds(w, req)
    ensures StoresAreUnique(CommitImport(w, req))
    ensures var r := w.requests[req];
      var before, after := StoreOf(w, r.user), StoreOf(CommitImport(w, req), r.user);
      && after.transactions == before.transactions + NewRows(r.rows.transactions)
      && after.events == before.events + NewRows(r.rows.events)
  {
    var r := w.requests[req];
    assert StoreIsUnique(StoreOf(w, r.user));
    CommitStoresTheRows(StoreOf(w, r.user), r.rows);
  }

  lemma {:induction false} CommittedSuccess(w: World, req: nat)
    requires Safe(w) && Succeeds(w, req)
    ensures var w', r := CommitImport(w, req), w.requests[req];
      && RequestIsBound(w, req)
      && w'.previews == w.previews[r.preview := w.previews[r.preview].(consumedAt := Some(r.phase.at))]
      && SuccessesAreFaithful(w')
  {
  }

  lemma {:induction false} CommittedPreviewsStand(w: World, w': World, s: Success)
    requires PreviewsStand(w) && s.preview in w.previews && w'.now == w.now && w'.successes == w.successes + [s]
    requires w'.previews == w.previews[s.preview := w.previews[s.preview].(consumedAt := Some(s.at))]
    ensures PreviewsStand(w')
  {
    forall id | id in w'.previews ensures ConsumedBySuccess(w', id) {
      if id == s.preview {
        assert w'.successes[|w.successes|].preview == id;
      } else {
        assert ConsumedBySuccess(w, id);
        if w.previews[id].consumedAt.Some? {
          var i :| 0 <= i < |w.successes| && w.successes[i].preview == id;
          assert w'.successes[i].preview == id;
        }
      }
    }
  }

  lemma {:induction false} OthersStayBound(w: World, req: nat)
    requires RequestsAreBound(w) && ClaimsAreExclusive(w) && Succeeds(w, req)
    ensures RequestsAreBound(CommitImport(w, req)) && ClaimsAreExclusive(CommitImport(w, req))
  {
  }

  lemma {:induction false} CommitIsSafe(w: World, req: nat)
    requires Safe(w) && Succeeds(w, req)
    ensures Safe(CommitImport(w, req))
  {
    var w' := CommitImport(w, req);
    CommittedStoreIsUnique(w, req);
    CommittedSuccess(w, req);
    OthersStayBound(w, req);
    CommittedPreviewsStand(w, w', w'.successes[|w.successes|]);
  }

  lemma {:induction false} SurroundingsAreSafe(w: World, w': World)
    requires Safe(w) && w' == w.(now := w'.now, stores := w'.stores) && w'.now >= w.now && StoresAreUnique(w')
    ensures Safe(w')
  {
  }

  lemma {:induction false} ActionsAreSafe(w: World, a: Action)
    requires Safe(w)
    ensures Safe(Act(w, a))
  {
    match a
    case Tick(_) => SurroundingsAreSafe(w, Act(w, a));
    case Show(id, user, source, file, rows) =>
      if id !in w.previews { ShowIsSafe(w, id, NewPreview(user, STANDARD_MODE, source, file, rows, w.now)); }
    case Begin(req, user, preview, source, file, rows) =>
      if req !in w.requests { AdvanceIsSafe(w, req, Request(user, preview, source, file, rows, Built)); }
    case Check(req) => if req in w.requests && w.requests[req].phase.Built? { CheckIsSafe(w, req); }
    case Claim(req) => if req in w.requests && w.requests[req].phase.Checked? { ClaimIsSafe(w, req); }
    case Commit(req) =>
      if req in w.requests && w.requests[req].phase.Claimed? {
        if Succeeds(w, req) { CommitIsSafe(w, req); } else { DropIsSafe(w, req); }
      }
    case Abort(req) => DropIsSafe(w, req);
    case Change(user, store) => SurroundingsAreSafe(w, Act(w, a));
  }

  /** In every interleaving: each preview is consumed by at most one successful commit, every success is faithful to its
      preview, previews are consumed only by successes, and hashes stay unique. */
  lemma {:induction false} EveryInterleavingIsSafe(trace: seq<Action>)
    ensures Safe(Run(START, trace))
  {
    if |trace| > 0 {
      EveryInterleavingIsSafe(trace[..|trace| - 1]);
      ActionsAreSafe(Run(START, trace[..|trace| - 1]), trace[|trace| - 1]);
    }
  }

  /** Stated on its own: a preview is consumed exactly when one commit of it has succeeded, and never two. */
  lemma {:induction false} ConsumedExactlyOnce(trace: seq<Action>, id: string)
    requires id in Run(START, trace).previews
    ensures var w := Run(START, trace);
      && (w.previews[id].consumedAt.Some? <==> exists i :: 0 <= i < |w.successes| && w.successes[i].preview == id)
      && (forall i, j :: 0 <= i < j < |w.successes| && w.successes[i].preview == id ==> w.successes[j].preview != id)
  {
    var w := Run(START, trace);
    EveryInterleavingIsSafe(trace);
    assert ConsumedBySuccess(w, id);
    if i :| 0 <= i < |w.successes| && w.successes[i].preview == id {
      assert SuccessIsFaithful(w.previews, w.successes[i]);
    }
  }

  /** A commit either inserts exactly the new rows shown, or leaves every preview, table and success as it was. */
  lemma {:induction false} CommitsAreAllOrNothing(w: World, req: nat)
    requires Safe(w) && req in w.requests && w.requests[req].phase.Claimed?
    ensures var w', r := Act(w, Commit(req)), w.requests[req];
      && r.preview in w.previews
      && if |w'.successes| > |w.successes| then
           var p := w.previews[r.preview].payload;
           && StoreOf(w', r.user).transactions == StoreOf(w, r.user).transactions + NewRows(p.transactions)
           && StoreOf(w', r.user).events == StoreOf(w, r.user).events + NewRows(p.events)
         else w' == Drop(w, req)
  {
    assert RequestIsBound(w, req);
    if Succeeds(w, req) { CommittedStoreIsUnique(w, req); }
  }

  ghost predicate OnlyConsumed(before: Preview, after: Preview) {
    after == before.(consumedAt := after.consumedAt) && (before.consumedAt.Some? ==> after == before)
  }

  lemma {:induction false} ActionOnlyConsumes(w: World, a: Action, id: string)
    requires id in w.previews
    ensures id in Act(w, a).previews && OnlyConsumed(w.previews[id], Act(w, a).previews[id])
  {
  }

  /** Once consumed, always consumed; nothing else about a preview ever changes. */
  lemma {:induction false} PreviewsNeverReopen(w: World, trace: seq<Action>, id: string)
    requires id in w.previews
    ensures id in Run(w, trace).previews && OnlyConsumed(w.previews[id], Run(w, trace).previews[id])
  {
    if |trace| > 0 {
      var init := trace[..|trace| - 1];
      PreviewsNeverReopen(w, init, id);
      ActionOnlyConsumes(Run(w, init), trace[|trace| - 1], id);
    }
  }

  // ---------------------------------------------------------------- what is refused and what goes through

  /** The verdict on a commit by the fields of the stored preview, in the order the answers are given: unknown to the
      user, consumed, expired, for another flow, file or contents, and else accepted. */
  lemma {:induction false} VerdictByFields(previews: Previews, id: string, user: string, mode: string, source: string,
                                           file: string, payload: Response, now: int)
    requires id in previews ==> previews[id].counts == CountsOf(previews[id].payload)
    ensures var verdict := Checks(Find(previews, id, user), mode, source, file, payload, now);
      && (verdict == Refused(404) <==> id !in previews || previews[id].owner != user)
      && (id in previews && previews[id].owner == user ==>
           var p := previews[id];
           var matches := p.mode == mode && p.source == source && p.file == file && p.payload == payload;
           && (verdict == Refused(410) <==> p.consumedAt == None && now >= p.expiresAt)
           && (verdict == Refused(409) <==> p.consumedAt != None || (now < p.expiresAt && !matches))
           && (verdict == Ok(()) <==> p.consumedAt == None && now < p.expiresAt && matches))
  {
  }

  /** A new preview holds what was shown to whom, and expires a quarter of an hour on. */
  lemma {:induction false} NewPreviewByFields(w: World, id: string, user: string, source: string, file: string,
                                              rows: Response)
    requires id !in w.previews
    ensures var w' := Act(w, Show(id, user, source, file, rows));
      && w'.previews.Keys == w.previews.Keys + {id}
      && (forall other :: other in w.previews ==> w'.previews[other] == w.previews[other])
      && var p := w'.previews[id];
      && p.owner == user && p.mode == "standard" && p.source == source && p.file == file && p.payload == rows
      && p.counts == CountsOf(rows) && p.createdAt == w.now && p.expiresAt == w.now + 15 * 60 && p.consumedAt == None
  {
  }

  /** A claim succeeds exactly on the user's own unconsumed preview, and writes the time down there and nothing else. */
  lemma {:induction false} ConsumedByFields(previews: Previews, id: string, user: string, at: int)
    ensures Consume(previews, id, user, at).Some? <==>
      id in previews && previews[id].owner == user && previews[id].consumedAt == None
    ensures Consume(previews, id, user, at).Some? ==>
      var after := Consume(previews, id, user, at).value;
      && after.Keys == previews.Keys
      && (forall other :: other in previews && other != id ==> after[other] == previews[other])
      && after[id] == previews[id].(consumedAt := Some(at))
  {
  }

  /** A request for a preview that its user sees unconsumed, with the same source, file and rows. */
  ghost predicate Matches(w: World, req: nat) {
    && req in w.requests && w.requests[req].phase.Built?
    && var r := w.requests[req];
    && r.preview in w.previews
    && var p := w.previews[r.preview];
    && p.owner == r.user && p.consumedAt == None && p.mode == "standard"
    && p.source == r.source && p.file == r.file && p.payload == r.rows && p.counts == CountsOf(p.payload)
  }

  /** Before its preview is a quarter of an hour old a matching request passes its check, and unless another request holds
      the claim it gets it; from then on it is dropped, and nothing else happens. */
  lemma {:induction false} RequestsPassUntilExpiry(w: World, req: nat)
    requires Safe(w) && Matches(w, req)
    ensures var r := w.requests[req];
      var expired := w.now >= w.previews[r.preview].createdAt + 15 * 60;
      && (expired ==> Act(w, Check(req)) == w.(requests := w.requests - {req}))
      && (!expired ==> Act(w, Check(req)) == w.(requests := w.requests[req := r.(phase := Checked(w.now))]))
  {
  }

  /** A checked request whose preview is unconsumed gets the claim whenever no other request holds it, however long ago
      the check was. */
  lemma {:induction false} UnlockedClaimsAreGranted(w: World, req: nat)
    requires req in w.requests && w.requests[req].phase.Checked? && w.requests[req].preview in w.previews
    requires w.previews[w.requests[req].preview].owner == w.requests[req].user
    requires w.previews[w.requests[req].preview].consumedAt == None
    requires forall q :: q in w.requests && q != req && w.requests[q].preview == w.requests[req].preview ==>
      !w.requests[q].phase.Claimed?
    ensures Act(w, Claim(req))
         == w.(requests := w.requests[req := w.requests[req].(phase := Claimed(w.requests[req].phase.at))])
  {
    assert !IsLocked(w, w.requests[req].preview, req);
  }

  /** While another request holds the claim a checked request waits; it gets the claim once the holder has aborted, and is
      dropped once the holder has committed. */
  lemma {:induction false} ClaimsWaitForTheHolder(w: World, req: nat, holder: nat)
    requires Safe(w) && req in w.requests && holder in w.requests && req != holder
    requires w.requests[req].phase.Checked? && w.requests[holder].phase.Claimed?
    requires w.requests[req].preview == w.requests[holder].preview && w.requests[req].user == w.requests[holder].user
    ensures Act(w, Claim(req)) == w
    ensures var r := w.requests[req];
      var released := Act(w, Abort(holder));
      Act(released, Claim(req)) == released.(requests := released.requests[req := r.(phase := Claimed(r.phase.at))])
    ensures var committed := Act(w, Commit(holder));
      |committed.successes| > |w.successes| ==>
        Act(committed, Claim(req)) == committed.(requests := committed.requests - {req})
  {
    assert IsLocked(w, w.requests[req].preview, req);
    var released := Act(w, Abort(holder));
    assert RequestIsBound(w, holder);
    forall q | q in released.requests && q != req && released.requests[q].preview == w.requests[req].preview
      ensures !released.requests[q].phase.Claimed?
    {
      assert q in w.requests && q != holder;
    }
    UnlockedClaimsAreGranted(released, req);
  }

  // ---------------------------------------------------------------- an undisturbed import

  /** A preview, and a commit request for it that is built at the time `t` and then checked. */
  function UpToCheck(w: World, id: string, req: nat, user: string, file: string, rows: Response, t: int): World {
    Act(Act(Act(Act(w, Show(id, user, rows.source, file, rows)), Tick(t)),
            Begin(req, user, id, rows.source, file, rows)), Check(req))
  }

  /** The same, claimed and committed at once. */
  function UpToCommit(w: World, id: string, req: nat, user: string, file: string, rows: Response, t: int): World {
    Act(Act(UpToCheck(w, id, req, user, file, rows, t), Claim(req)), Commit(req))
  }

  function Begun(w: World, id: string, req: nat, user: string, file: string, rows: Response, t: int, phase: Phase): World {
    w.(now := t, previews := w.previews[id := NewPreview(user, STANDARD_MODE, rows.source, file, rows, w.now)],
       requests := w.requests[req := Request(user, id, rows.source, file, rows, phase)])
  }

  lemma {:induction false} UndisturbedCheck(w: World, id: string, req: nat, user: string, file: string, rows: Response,
                                            t: int)
    requires id !in w.previews && req !in w.requests && w.now <= t
    ensures t < w.now + 15 * 60 ==>
      UpToCheck(w, id, req, user, file, rows, t) == Begun(w, id, req, user, file, rows, t, Checked(t))
    ensures t >= w.now + 15 * 60 ==>
      UpToCheck(w, id, req, user, file, rows, t)
      == w.(now := t, previews := w.previews[id := NewPreview(user, STANDARD_MODE, rows.source, file, rows, w.now)])
  {
    var built := Begun(w, id, req, user, file, rows, t, Built);
    assert built.requests - {req} == w.requests;
  }

  lemma {:induction false} NewPreviewIsUnlocked(w: World, id: string, req: nat, user: string, file: string, rows: Response,
                                                t: int)
    requires RequestsAreBound(w) && id !in w.previews
    ensures Act(Begun(w, id, req, user, file, rows, t, Checked(t)), Claim(req))
         == Begun(w, id, req, user, file, rows, t, Claimed(t))
  {
    var checked := Begun(w, id, req, user, file, rows, t, Checked(t));
    forall r | r in checked.requests && r != req
      ensures !(checked.requests[r].preview == id && checked.requests[r].phase.Claimed?)
    {
      assert RequestIsBound(w, r);
    }
  }

  /** An import that nothing disturbs goes through from any safe state at every time until its preview is a quarter of an
      hour old, and stores exactly the file's hashes besides the old ones. */
  lemma {:induction false} UndisturbedImportSucceeds(w: World, id: string, req: nat, user: string, file: string,
                                                     source: string, parsed: Parsed, t: int)
    requires Safe(w) && id !in w.previews && req !in w.requests && w.now <= t < w.now + 15 * 60
    requires !HasPendingFx(BuildResponse(source, parsed, StoreOf(w, user)))
    ensures var w' := UpToCommit(w, id, req, user, file, BuildResponse(source, parsed, StoreOf(w, user)), t);
      && |w'.successes| == |w.successes| + 1
      && w'.successes[|w.successes|].preview == id && w'.successes[|w.successes|].at == t
      && Hashes(StoreOf(w', user).transactions) == Hashes(StoreOf(w, user).transactions) + BuiltHashes(parsed.transactions)
      && Hashes(StoreOf(w', user).events) == Hashes(StoreOf(w, user).events) + BuiltHashes(parsed.events)
  {
    var rows := BuildResponse(source, parsed, StoreOf(w, user));
    UndisturbedCheck(w, id, req, user, file, rows, t);
    NewPreviewIsUnlocked(w, id, req, user, file, rows, t);
    CommitAddsTheFile(source, parsed, StoreOf(w, user));
  }

  /** From then on it is refused, whatever the rows: no table, success or other preview changes, and the preview stays
      unconsumed. */
  lemma {:induction false} LateImportIsRefused(w: World, id: string, req: nat, user: string, file: string, rows: Response,
                                               t: int)
    requires id !in w.previews && req !in w.requests && t >= w.now + 15 * 60
    ensures var w' := UpToCommit(w, id, req, user, file, rows, t);
      && w'.stores == w.stores && w'.successes == w.successes && w'.requests == w.requests
      && w'.previews.Keys == w.previews.Keys + {id} && w'.previews[id].consumedAt == None
      && forall other :: other in w.previews ==> w'.previews[other] == w.previews[other]
  {
    UndisturbedCheck(w, id, req, user, file, rows, t);
  }
}
