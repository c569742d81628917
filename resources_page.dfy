/**
 * The state the Resources page keeps between events, and the handlers that change it
 * step by step: choosing a file in the upload form, deriving thumbnails for the
 * loaded catalog, submitting the upload form, and sending a document to the chat or
 * quiz page. Every remote call (authentication, storage, database, fetch, text
 * extraction, thumbnail rendering) is an input that says whether it succeeded and
 * what it returned.
 */
module ResourcesPage {
  import opened Wrappers
  import opened Text
  import opened Catalog

  /** A file picked in a file input: its name and its reported MIME type. */
  datatype FileInfo = FileInfo(name: string, mimeType: string)

  /** The upload form's draft. */
  datatype FormData = FormData(name: string, description: string, file: Option<FileInfo>, thumbnail: Option<FileInfo>)

  const EmptyForm := FormData("", "", None, None)

  /** Which file input changed. */
  datatype Slot = FileSlot | ThumbnailSlot

  /** A file is accepted for the primary slot when its type mentions "pdf", for the thumbnail slot "image". */
  predicate Accepts(slot: Slot, f: FileInfo) {
    match slot
    case FileSlot => Includes(f.mimeType, "pdf")
    case ThumbnailSlot => Includes(f.mimeType, "image")
  }

  function RejectionNotice(slot: Slot): string {
    match slot
    case FileSlot => "Only PDF files are allowed"
    case ThumbnailSlot => "Only image files are allowed for thumbnails"
  }

  /** Every file held by the draft passed the check for its slot. */
  predicate DraftChecked(form: FormData) {
    && (form.file.Some? ==> Accepts(FileSlot, form.file.value))
    && (form.thumbnail.Some? ==> Accepts(ThumbnailSlot, form.thumbnail.value))
  }

  // ---------------------------------------------------------------------------
  // Thumbnails
  // ---------------------------------------------------------------------------

  /** The outcome of one call to the thumbnail renderer. */
  datatype RenderOutcome = Rendered(dataUrl: string) | RenderFailed

  /** `resource.thumbnail_url` is truthy: present and not the empty string. */
  predicate HasStoredThumbnail(r: Resource) {
    r.thumbnailUrl.Some? && r.thumbnailUrl.value != ""
  }

  /** `thumbnails[id]` is truthy: present and not the empty string. */
  predicate IsCached(cache: map<string, string>, id: string) {
    id in cache && cache[id] != ""
  }

  /** A thumbnail is rendered only for a resource with no stored thumbnail and no cached one. */
  predicate NeedsThumbnail(r: Resource, cache: map<string, string>) {
    !HasStoredThumbnail(r) && !IsCached(cache, r.id)
  }

  function NeedsThumbnailIn(cache: map<string, string>): Resource -> bool {
    (r: Resource) => NeedsThumbnail(r, cache)
  }

  /** The ids that a pass over `rs[..n]` adds: those rendered successfully. */
  ghost function RenderedIds(rs: seq<Resource>, snapshot: map<string, string>, outcomes: seq<RenderOutcome>, n: nat): set<string>
    requires n <= |rs| && |outcomes| == |rs|
  {
    set i | 0 <= i < n && NeedsThumbnail(rs[i], snapshot) && outcomes[i].Rendered? :: rs[i].id
  }

  predicate UniqueIds(rs: seq<Resource>) {
    forall i, j :: 0 <= i < j < |rs| ==> rs[i].id != rs[j].id
  }

  /**
   * What the thumbnail effect has done to the map once it has visited `rs[..n]`: it
   * added exactly the ids rendered successfully, each holding a thumbnail rendered for a
   * resource with that id, kept every other entry, and never replaced a cached one.
   */
  ghost predicate PassDone(cache: map<string, string>, snapshot: map<string, string>,
                           rs: seq<Resource>, outcomes: seq<RenderOutcome>, n: nat)
    requires n <= |rs| && |outcomes| == |rs|
  {
    var added := RenderedIds(rs, snapshot, outcomes, n);
    && cache.Keys == snapshot.Keys + added
    && (forall id :: id in cache && id !in added ==> cache[id] == snapshot[id])
    && AddedFromRenders(cache, snapshot, rs, outcomes, n)
    && (UniqueIds(rs) ==> HoldsOwnRender(cache, snapshot, rs, outcomes, n))
    && (forall id :: IsCached(snapshot, id) ==> id in cache && cache[id] == snapshot[id])
  }

  /** Every added entry holds a thumbnail rendered for a visited resource with that id. */
  ghost predicate AddedFromRenders(cache: map<string, string>, snapshot: map<string, string>,
                                   rs: seq<Resource>, outcomes: seq<RenderOutcome>, n: nat)
    requires n <= |rs| && |outcomes| == |rs|
  {
    forall id :: id in RenderedIds(rs, snapshot, outcomes, n) ==>
      exists j :: 0 <= j < n && rs[j].id == id && NeedsThumbnail(rs[j], snapshot) && id in cache
                  && outcomes[j] == Rendered(cache[id])
  }

  /** Every visited resource rendered successfully has its own thumbnail in the map. */
  ghost predicate HoldsOwnRender(cache: map<string, string>, snapshot: map<string, string>,
                                 rs: seq<Resource>, outcomes: seq<RenderOutcome>, n: nat)
    requires n <= |rs| && |outcomes| == |rs|
  {
    forall j :: 0 <= j < n && NeedsThumbnail(rs[j], snapshot) && outcomes[j].Rendered? ==>
      rs[j].id in cache && cache[rs[j].id] == outcomes[j].dataUrl
  }

  /** The map after visiting resource `n`. */
  function Visit(before: map<string, string>, snapshot: map<string, string>,
                 rs: seq<Resource>, outcomes: seq<RenderOutcome>, n: nat): map<string, string>
    requires n < |rs| && |outcomes| == |rs|
  {
    if NeedsThumbnail(rs[n], snapshot) && outcomes[n].Rendered? then before[rs[n].id := outcomes[n].dataUrl] else before
  }

  /** Visiting one more resource keeps `PassDone`. */
  lemma PassStep(before: map<string, string>, snapshot: map<string, string>,
                 rs: seq<Resource>, outcomes: seq<RenderOutcome>, n: nat)
    requires n < |rs| && |outcomes| == |rs|
    requires PassDone(before, snapshot, rs, outcomes, n)
    ensures PassDone(Visit(before, snapshot, rs, outcomes, n), snapshot, rs, outcomes, n + 1)
  {
    EntriesStep(before, snapshot, rs, outcomes, n);
    AddedStep(before, snapshot, rs, outcomes, n);
    if UniqueIds(rs) {
      OwnRenderStep(before, snapshot, rs, outcomes, n);
    }
  }

  lemma EntriesStep(before: map<string, string>, snapshot: map<string, string>,
                    rs: seq<Resource>, outcomes: seq<RenderOutcome>, n: nat)
    requires n < |rs| && |outcomes| == |rs|
    requires var added := RenderedIds(rs, snapshot, outcomes, n);
      && before.Keys == snapshot.Keys + added
      && (forall id :: id in before && id !in added ==> before[id] == snapshot[id])
      && (forall id :: IsCached(snapshot, id) ==> id in before && before[id] == snapshot[id])
    ensures var after, added := Visit(before, snapshot, rs, outcomes, n), RenderedIds(rs, snapshot, outcomes, n + 1);
      && after.Keys == snapshot.Keys + added
      && (forall id :: id in after && id !in added ==> after[id] == snapshot[id])
      && (forall id :: IsCached(snapshot, id) ==> id in after && after[id] == snapshot[id])
  {
    var isNew := NeedsThumbnail(rs[n], snapshot) && outcomes[n].Rendered?;
    assert RenderedIds(rs, snapshot, outcomes, n + 1)
        == RenderedIds(rs, snapshot, outcomes, n) + (if isNew then {rs[n].id} else {});
  }

  lemma AddedStep(before: map<string, string>, snapshot: map<string, string>,
                  rs: seq<Resource>, outcomes: seq<RenderOutcome>, n: nat)
    requires n < |rs| && |outcomes| == |rs|
    requires AddedFromRenders(before, snapshot, rs, outcomes, n)
    ensures AddedFromRenders(Visit(before, snapshot, rs, outcomes, n), snapshot, rs, outcomes, n + 1)
  {
    var after := Visit(before, snapshot, rs, outcomes, n);
    var isNew := NeedsThumbnail(rs[n], snapshot) && outcomes[n].Rendered?;
    assert RenderedIds(rs, snapshot, outcomes, n + 1)
        == RenderedIds(rs, snapshot, outcomes, n) + (if isNew then {rs[n].id} else {});
    forall id | id in RenderedIds(rs, snapshot, outcomes, n + 1)
      ensures exists j :: 0 <= j < n + 1 && rs[j].id == id && NeedsThumbnail(rs[j], snapshot) && id in after
                          && outcomes[j] == Rendered(after[id])
    {
      if isNew && id == rs[n].id {
        assert outcomes[n] == Rendered(after[id]);
      } else {
        var j :| 0 <= j < n && rs[j].id == id && NeedsThumbnail(rs[j], snapshot) && id in before
                 && outcomes[j] == Rendered(before[id]);
        assert after[id] == before[id];
      }
    }
  }

  lemma OwnRenderStep(before: map<string, string>, snapshot: map<string, string>,
                      rs: seq<Resource>, outcomes: seq<RenderOutcome>, n: nat)
    requires n < |rs| && |outcomes| == |rs|
    requires UniqueIds(rs) && HoldsOwnRender(before, snapshot, rs, outcomes, n)
    ensures HoldsOwnRender(Visit(before, snapshot, rs, outcomes, n), snapshot, rs, outcomes, n + 1)
  {
    var after := Visit(before, snapshot, rs, outcomes, n);
    forall j | 0 <= j < n + 1 && NeedsThumbnail(rs[j], snapshot) && outcomes[j].Rendered?
      ensures rs[j].id in after && after[rs[j].id] == outcomes[j].dataUrl
    {
      if j < n {
        assert rs[j].id != rs[n].id;
      }
    }
  }

  // ---------------------------------------------------------------------------
  // Upload
  // ---------------------------------------------------------------------------

  /** The row the form inserts into the `resources` table. */
  datatype NewRow = NewRow(name: string, description: string, fileUrl: string, thumbnailUrl: Option<string>, userId: string)

  /** The remote calls of a submission, in the order they are made. */
  datatype Stage =
    | ResolveUser
    | UploadPdf(path: string)
    | UploadThumbnail(path: string)
    | InsertRow(row: NewRow)
    | Refetch

  /**
   * What the remote side answers: the signed-in user's id (None when there is no user
   * or the lookup fails), the public URL of each stored file (None when its upload
   * fails), and whether the insert succeeds.
   */
  datatype Remote = Remote(user: Option<string>, pdfUrl: Option<string>, thumbnailUrl: Option<string>, insertOk: bool)

  /** The storage path of the primary file: user id, then timestamp and file name. */
  function PdfPath(userId: string, stamp: string, f: FileInfo): string {
    userId + "/" + stamp + "-" + f.name
  }

  /** The storage path of a thumbnail: under the user's `thumbnails` folder. */
  function ThumbnailPath(userId: string, f: FileInfo): string {
    userId + "/thumbnails/" + f.name
  }

  /**
   * The calls a submission makes when every one of them succeeds. Values the remote
   * side has not produced (a missing user or URL) only ever reach stages after the one
   * that failed, which are never made.
   */
  function Plan(form: FormData, env: Remote, stamp: string): (plan: seq<Stage>)
    requires form.file.Some?
    ensures |plan| == if form.thumbnail.Some? then 5 else 4
    ensures plan[0] == ResolveUser && plan[|plan| - 1] == Refetch
    ensures form.thumbnail.Some? ==> plan[2].UploadThumbnail?
    ensures forall k :: 0 <= k < |plan| && plan[k].UploadThumbnail? ==> form.thumbnail.Some?
    ensures forall k :: 0 <= k < |plan| && plan[k].InsertRow? ==> k == |plan| - 2
    ensures plan[1] == UploadPdf(PdfPath(env.user.GetOr(""), stamp, form.file.value))
    ensures form.thumbnail.Some? ==>
              plan[2] == UploadThumbnail(ThumbnailPath(env.user.GetOr(""), form.thumbnail.value))
    ensures plan[|plan| - 2].InsertRow? && plan[|plan| - 2].row.name == form.name
            && plan[|plan| - 2].row.description == form.description
    ensures env.user.Some? && env.pdfUrl.Some? ==>
              plan[|plan| - 2].row
              == NewRow(form.name, form.description, env.pdfUrl.value,
                        if form.thumbnail.Some? then env.thumbnailUrl else None, env.user.value)
  {
    var uid := env.user.GetOr("");
    var row := NewRow(form.name, form.description, env.pdfUrl.GetOr(""),
                      if form.thumbnail.Some? then env.thumbnailUrl else None, uid);
    [ResolveUser, UploadPdf(PdfPath(uid, stamp, form.file.value))]
    + (if form.thumbnail.Some? then [UploadThumbnail(ThumbnailPath(uid, form.thumbnail.value))] else [])
    + [InsertRow(row), Refetch]
  }

  /** Whether one call succeeds. Refetching reports its own errors and never fails the submission. */
  predicate Succeeds(stage: Stage, env: Remote) {
    match stage
    case ResolveUser => env.user.Some?
    case UploadPdf(_) => env.pdfUrl.Some?
    case UploadThumbnail(_) => env.thumbnailUrl.Some?
    case InsertRow(_) => env.insertOk
    case Refetch => true
  }

  datatype SubmitOutcome = NoFile | Uploaded | Failed

  const UploadFailedNotice := "Error uploading resource. Please try again."

  /**
   * The remote calls of a submission with a primary file: the user lookup, the PDF
   * upload, the thumbnail upload when there is a thumbnail, the insert and, after a
   * successful insert, the refetch. The first failure stops the sequence. Returns
   * whether every call succeeded and the calls made, in order.
   */
  method RunStages(form: FormData, env: Remote, stamp: string) returns (ok: bool, calls: seq<Stage>)
    requires form.file.Some?
    ensures var plan := Plan(form, env, stamp);
      && 1 <= |calls| <= |plan| && calls == plan[..|calls|]
      && (forall k :: 0 <= k < |calls| - 1 ==> Succeeds(calls[k], env))
      && (ok <==> forall k :: 0 <= k < |plan| ==> Succeeds(plan[k], env))
      && (ok ==> calls == plan)
      && (!ok ==> !Succeeds(calls[|calls| - 1], env))
  {
    ghost var plan := Plan(form, env, stamp);
    ok := false;
    calls := [ResolveUser];
    if env.user.None? {
      assert !Succeeds(plan[0], env);
      return;
    }
    var uid := env.user.value;
    calls := calls + [UploadPdf(PdfPath(uid, stamp, form.file.value))];
    if env.pdfUrl.None? {
      assert !Succeeds(plan[1], env);
      return;
    }
    var fileUrl := env.pdfUrl.value;
    var thumbnailUrl: Option<string> := None;
    if form.thumbnail.Some? {
      calls := calls + [UploadThumbnail(ThumbnailPath(uid, form.thumbnail.value))];
      if env.thumbnailUrl.None? {
        assert !Succeeds(plan[2], env);
        return;
      }
      thumbnailUrl := env.thumbnailUrl;
    }
    calls := calls + [InsertRow(NewRow(form.name, form.description, fileUrl, thumbnailUrl, uid))];
    if !env.insertOk {
      assert !Succeeds(plan[|plan| - 2], env);
      return;
    }
    calls := calls + [Refetch];
    ok := true;
  }

  // ---------------------------------------------------------------------------
  // Document dispatch
  // ---------------------------------------------------------------------------

  datatype PdfAction = Chat | Quiz

  /** The page a document is sent to. */
  function RouteFor(action: PdfAction): (route: string)
    ensures route == "/pdf-chat" <==> action == Chat
    ensures route == "/quiz" <==> action == Quiz
  {
    match action
    case Chat => "/pdf-chat"
    case Quiz => "/quiz"
  }

  const PdfContentKey := "pdfContent"
  const PdfNameKey := "pdfName"
  const PdfUrlKey := "pdfUrl"
  const PdfFailedNotice := "Error processing PDF. Please try again."

  // ---------------------------------------------------------------------------
  // The page
  // ---------------------------------------------------------------------------

  class Page {
    /** The catalog as last fetched, newest first. */
    var resources: seq<Resource>
    /** Derived thumbnails by resource id. */
    var thumbnails: map<string, string>
    var formData: FormData
    var isDialogOpen: bool
    var uploading: bool
    /** The browser's session storage, as far as this page writes it. */
    var session: map<string, string>

    /**
     * Between handlers: every file in the draft was accepted by its input's check,
     * and no upload is in progress.
     */
    predicate Valid()
      reads this
    {
      DraftChecked(formData) && !uploading
    }

    constructor (session: map<string, string>)
      ensures Valid()
      ensures resources == [] && thumbnails == map[] && formData == EmptyForm
      ensures !isDialogOpen && !uploading && this.session == session
    {
      resources := [];
      thumbnails := map[];
      formData := EmptyForm;
      isDialogOpen := false;
      uploading := false;
      this.session := session;
    }

    /**
     * A file input changed. A rejected file raises a notice and leaves the draft as it
     * was; an accepted one fills its own slot and nothing else; no file changes nothing.
     */
    method HandleFileChange(selected: Option<FileInfo>, slot: Slot) returns (notice: Option<string>)
      requires Valid()
      modifies this`formData
      ensures Valid()
      ensures selected.None? ==> formData == old(formData) && notice == None
      ensures selected.Some? && !Accepts(slot, selected.value) ==>
                formData == old(formData) && notice == Some(RejectionNotice(slot))
      ensures selected.Some? && Accepts(slot, selected.value) ==> notice == None
      ensures selected.Some? && Accepts(slot, selected.value) && slot == FileSlot ==>
                formData == old(formData).(file := selected)
      ensures selected.Some? && Accepts(slot, selected.value) && slot == ThumbnailSlot ==>
                formData == old(formData).(thumbnail := selected)
    {
      notice := None;
      if selected.Some? {
        var file := selected.value;
        if slot == FileSlot && !Includes(file.mimeType, "pdf") {
          notice := Some(RejectionNotice(FileSlot));
          return;
        }
        if slot == ThumbnailSlot && !Includes(file.mimeType, "image") {
          notice := Some(RejectionNotice(ThumbnailSlot));
          return;
        }
        if slot == FileSlot {
          formData := formData.(file := selected);
        } else {
          formData := formData.(thumbnail := selected);
        }
      }
    }

    /**
     * One resource's turn in the thumbnail effect. Whether to render is decided on
     * `snapshot`, the map as the effect saw it when it started; a rendered thumbnail is
     * added to the current map under that resource's id, and a failed render leaves
     * the map as it is.
     */
    method ThumbnailStep(r: Resource, snapshot: map<string, string>, outcome: RenderOutcome) returns (rendered: bool)
      modifies this`thumbnails
      ensures rendered == NeedsThumbnail(r, snapshot)
      ensures thumbnails == if rendered && outcome.Rendered? then old(thumbnails)[r.id := outcome.dataUrl]
                            else old(thumbnails)
    {
      rendered := !HasStoredThumbnail(r) && !IsCached(snapshot, r.id);
      if rendered {
        match outcome
        case Rendered(dataUrl) =>
          thumbnails := thumbnails[r.id := dataUrl];
        case RenderFailed =>
      }
    }

    /**
     * The thumbnail effect, run when the catalog changes: each resource in turn, with
     * `outcomes[i]` the renderer's answer for `resources[i]` should it be asked.
     * Returns the resources the renderer was asked about, in catalog order.
     */
    method GenerateThumbnails(outcomes: seq<RenderOutcome>) returns (renderCalls: seq<Resource>)
      requires |outcomes| == |resources|
      modifies this`thumbnails
      ensures renderCalls == Keep(resources, NeedsThumbnailIn(old(thumbnails)))
      ensures thumbnails.Keys == old(thumbnails).Keys + RenderedIds(resources, old(thumbnails), outcomes, |resources|)
      ensures forall id :: id in thumbnails && id !in RenderedIds(resources, old(thumbnails), outcomes, |resources|) ==>
                thumbnails[id] == old(thumbnails)[id]
      ensures forall id :: id in RenderedIds(resources, old(thumbnails), outcomes, |resources|) ==>
                exists i :: && 0 <= i < |resources| && resources[i].id == id && NeedsThumbnail(resources[i], old(thumbnails))
                            && id in thumbnails && outcomes[i] == Rendered(thumbnails[id])
      ensures UniqueIds(resources) ==>
                forall i :: 0 <= i < |resources| && NeedsThumbnail(resources[i], old(thumbnails)) && outcomes[i].Rendered? ==>
                  resources[i].id in thumbnails && thumbnails[resources[i].id] == outcomes[i].dataUrl
      ensures forall id :: IsCached(old(thumbnails), id) ==> id in thumbnails && thumbnails[id] == old(thumbnails)[id]
    {
      var snapshot := thumbnails;
      renderCalls := [];
      var i := 0;
      while i < |resources|
        invariant 0 <= i <= |resources|
        invariant renderCalls == Keep(resources[..i], NeedsThumbnailIn(snapshot))
        invariant PassDone(thumbnails, snapshot, resources, outcomes, i)
      {
        var r := resources[i];
        ghost var before := thumbnails;
        var rendered := ThumbnailStep(r, snapshot, outcomes[i]);
        if rendered {
          renderCalls := renderCalls + [r];
        }
        KeepPrefixStep(resources, i, NeedsThumbnailIn(snapshot));
        PassStep(before, snapshot, resources, outcomes, i);
        i := i + 1;
      }
      assert resources[..|resources|] == resources;
    }

    /**
     * Submitting the upload form. Without a primary file nothing happens. Otherwise the
     * calls of `Plan` are made in order until one fails: success closes the dialog,
     * empties the draft and refetches the catalog; a failure raises one notice and
     * leaves the dialog and the draft as they were. Either way `uploading` ends false.
     */
    method HandleSubmit(env: Remote, stamp: string) returns (outcome: SubmitOutcome, calls: seq<Stage>, notice: Option<string>)
      requires Valid()
      modifies this`formData, this`isDialogOpen, this`uploading
      ensures Valid()
      ensures outcome == NoFile <==> old(formData).file.None?
      ensures old(formData).file.None? ==>
                && outcome == NoFile && calls == [] && notice == None
                && formData == old(formData) && isDialogOpen == old(isDialogOpen) && uploading == old(uploading)
      ensures old(formData).file.Some? ==>
                var plan := Plan(old(formData), env, stamp);
                && !uploading
                && 1 <= |calls| <= |plan| && calls == plan[..|calls|]
                && (forall k :: 0 <= k < |calls| - 1 ==> Succeeds(calls[k], env))
                && (outcome == Uploaded <==> forall k :: 0 <= k < |plan| ==> Succeeds(plan[k], env))
      ensures outcome == Uploaded ==>
                && calls == Plan(old(formData), env, stamp)
                && env.user.Some? && env.pdfUrl.Some?
                && (old(formData).thumbnail.Some? ==> env.thumbnailUrl.Some?)
                && calls[|calls| - 2]
                   == InsertRow(NewRow(old(formData).name, old(formData).description, env.pdfUrl.value,
                                       if old(formData).thumbnail.Some? then env.thumbnailUrl else None,
                                       env.user.value))
                && !isDialogOpen && formData == EmptyForm && notice == None
      ensures outcome == Failed ==>
                && !Succeeds(calls[|calls| - 1], env)
                && isDialogOpen == old(isDialogOpen) && formData == old(formData)
                && notice == Some(UploadFailedNotice)
    {
      if formData.file.None? {
        outcome, calls, notice := NoFile, [], None;
        return;
      }
      uploading := true;
      var ok;
      ok, calls := RunStages(formData, env, stamp);
      if ok {
        isDialogOpen := false;
        formData := EmptyForm;
        outcome, notice := Uploaded, None;
      } else {
        outcome, notice := Failed, Some(UploadFailedNotice);
      }
      uploading := false;
    }

    /**
     * Sending a document to the chat or quiz page: fetch it, extract its text, then
     * write its text, name and URL into session storage and go to the chosen route.
     * `fetched` says whether the fetch and the read of its body succeeded,
     * `extracted` what text extraction returned. On any failure no key is written
     * and there is no navigation.
     */
    method HandlePdfAction(resource: Resource, action: PdfAction, fetched: bool, extracted: Option<string>)
      returns (route: Option<string>, notice: Option<string>)
      modifies this`session
      ensures route.Some? <==> fetched && extracted.Some?
      ensures route.Some? ==>
                && route.value == RouteFor(action) && notice == None
                && session == old(session)[PdfContentKey := extracted.value][PdfNameKey := resource.name][PdfUrlKey := resource.fileUrl]
      ensures route.None? ==> session == old(session) && notice == Some(PdfFailedNotice)
    {
      route, notice := None, None;
      if !fetched || extracted.None? {
        notice := Some(PdfFailedNotice);
        return;
      }
      var pdfText := extracted.value;
      session := session[PdfContentKey := pdfText];
      session := session[PdfNameKey := resource.name];
      session := session[PdfUrlKey := resource.fileUrl];
      route := Some(RouteFor(action));
    }
  }
}
