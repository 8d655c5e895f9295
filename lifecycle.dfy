/**
  The dataset's life on the server, as transitions of one store: the option naming the current
  dataset file, the option holding the last content signature, the files of the protected
  upload directory, the limiter's transients, and how many random names have been drawn.
  Random names come from a stream `rnd` of 32-character alphanumeric tokens, standing for
  wp_generate_password(32, false, false).
*/
module Lifecycle {
  import opened Util
  import opened InvertedIndex
  import opened RateLimit
  import opened Exclusions
  import opened Signature

  const HtAccess: string := ".htaccess"
  const IndexHtml: string := "index.html"
  const DenyAll: string := "Require all denied\nDeny from all"
  const JsonSuffix: string := ".json"

  predicate IsAlnum(c: char) {
    'a' <= c <= 'z' || 'A' <= c <= 'Z' || '0' <= c <= '9'
  }

  type Token = s: string | |s| == 32 && forall i :: 0 <= i < |s| ==> IsAlnum(s[i])
    witness "abcdefghijklmnopqrstuvwxyzABCDEF"

  /** The JSON document written to the dataset file. */
  datatype Payload = Payload(generatedAt: int, count: int, docs: seq<Doc>)

  /** A file of the directory: a dataset, or some other text (the two guard files, strays). */
  datatype Body = Json(payload: Payload) | Text(text: string)

  datatype Store = Store(optFile: string, optSig: Option<Sig>, files: map<string, Body>,
                         transients: Transients, draws: nat)

  /** What WP_Query returns: published posts and pages newest first by date, and by modification. */
  datatype Site = Site(byDate: seq<Post>, byModified: seq<Post>)

  /** Whether file_put_contents succeeded, and the size stat then reports. */
  datatype WriteOutcome = WriteFailed | WriteOk(size: nat)

  /** build_dataset's result array: which keys are set. */
  datatype BuildResult = BuildResult(success: Option<bool>, message: Option<string>,
                                     count: Option<int>, size: Option<int>, file: Option<string>)

  const WriteError: string := "Failed to write dataset file."

  // ---------------------------------------------------------------------------
  // Directory and file names

  /** uploads_dir_secure: create the deny-all .htaccess and the empty index.html when missing. */
  function Secured(files: map<string, Body>): map<string, Body> {
    var withHt := if HtAccess in files then files else files[HtAccess := Text(DenyAll)];
    if IndexHtml in withHt then withHt else withHt[IndexHtml := Text("")]
  }

  function EnsureDir(st: Store): Store {
    st.(files := Secured(st.files))
  }

  /** generate_new_filename */
  function FileName(t: Token): string {
    "dataset-" + t + JsonSuffix
  }

  function NewName(st: Store, rnd: nat -> Token): (Store, string) {
    (st.(draws := st.draws + 1), FileName(rnd(st.draws)))
  }

  /** dataset_filename_current: the stored name, or a fresh one stored first when the option is falsy. */
  function FilenameCurrent(st: Store, rnd: nat -> Token): (Store, string) {
    if PhpTruthy(st.optFile) then (st, st.optFile)
    else
      var (st1, name) := NewName(st, rnd);
      (st1.(optFile := name), name)
  }

  /** dataset_path_current: the directory is secured, then the current name is looked up. */
  function PathCurrent(st: Store, rnd: nat -> Token): (Store, string) {
    FilenameCurrent(EnsureDir(st), rnd)
  }

  /** purge_old_datasets' test for one directory entry. */
  predicate Deletes(f: string, keep: string) {
    f != "." && f != ".." && f != HtAccess && f != IndexHtml
    && !(PhpTruthy(keep) && f == keep)
    && EndsWith(f, JsonSuffix)
  }

  function Purged(files: map<string, Body>, keep: string): map<string, Body> {
    map f | f in files && !Deletes(f, keep) :: files[f]
  }

  /** purge_old_datasets(keep) */
  function Purge(st: Store, keep: string): Store {
    var s := EnsureDir(st);
    s.(files := Purged(s.files, keep))
  }

  // ---------------------------------------------------------------------------
  // Building

  /** The payload: the selected posts as documents, and their number. */
  function Dataset(posts: seq<Post>, s: Settings, now: int): Payload {
    var docs := Docs(Select(posts, ParseSettings(s)));
    Payload(now, |docs|, docs)
  }

  /**
    Where build_dataset writes. With rotation a fresh name is drawn and stored, every other
    dataset is purged and the directory secured; without, the current path is used.
  */
  function Target(st: Store, rnd: nat -> Token, rotate: bool): (Store, string) {
    if rotate then
      var (st1, name) := NewName(st, rnd);
      (EnsureDir(Purge(st1.(optFile := name), name)), name)
    else PathCurrent(st, rnd)
  }

  /** build_dataset(rotate) */
  function Build(st: Store, rnd: nat -> Token, s: Settings, posts: seq<Post>, now: int, rotate: bool, w: WriteOutcome): (Store, BuildResult) {
    var p := Dataset(posts, s, now);
    var (st1, name) := Target(st, rnd, rotate);
    match w
    case WriteFailed => (st1, BuildResult(Some(false), Some(WriteError), None, None, None))
    case WriteOk(size) =>
      (st1.(files := st1.files[name := Json(p)]), BuildResult(None, None, Some(p.count), Some(size), Some(name)))
  }

  /** `!empty($r['count']) || isset($r['size'])`: the callers' test that a build succeeded. */
  predicate Completed(r: BuildResult) {
    (r.count.Some? && r.count.value != 0) || r.size.Some?
  }

  /** rotate_filename_without_rebuild */
  function RotateOnly(st: Store, rnd: nat -> Token, s: Settings, posts: seq<Post>, now: int, w: WriteOutcome, copyOk: bool): Store {
    var st1 := EnsureDir(st);
    var (st2, oldName) := PathCurrent(st1, rnd);
    if oldName !in st2.files then Build(st2, rnd, s, posts, now, true, w).0
    else
      var (st3, newName) := NewName(st2, rnd);
      var st4 := if copyOk then st3.(files := st3.files[newName := st3.files[oldName]]) else st3;
      Purge(st4.(optFile := newName), newName)
  }

  /** cron_smart_rebuild_rotate */
  function Cron(st: Store, rnd: nat -> Token, s: Settings, site: Site, now: int, w: WriteOutcome, copyOk: bool): Store {
    var current := ContentSignature(site.byModified, s);
    if st.optSig != Some(current) then
      var (st1, r) := Build(st, rnd, s, site.byDate, now, true, w);
      if Completed(r) then st1.(optSig := Some(current)) else st1
    else RotateOnly(st, rnd, s, site.byDate, now, w, copyOk)
  }

  datatype AjaxReply = AjaxSuccess(result: BuildResult) | AjaxError(message: string)

  /** ajax_build_dataset */
  function Ajax(st: Store, rnd: nat -> Token, s: Settings, site: Site, now: int, w: WriteOutcome, canManage: bool, nonceOk: bool): (Store, AjaxReply) {
    if !canManage then (st, AjaxError("Forbidden"))
    else if !nonceOk then (st, AjaxError("Invalid nonce"))
    else
      var (st1, r) := Build(st, rnd, s, site.byDate, now, false, w);
      if Completed(r) then (st1.(optSig := Some(ContentSignature(site.byModified, s))), AjaxSuccess(r))
      else (st1, AjaxError(if r.message.Some? then r.message.value else "Build failed"))
  }

  // ---------------------------------------------------------------------------
  // Serving

  /**
    The request as rest_dataset sees it: whether the X-WP-Nonce header verifies, the Origin and
    Referer headers ("" when absent) and REMOTE_ADDR.
  */
  datatype Request = Request(nonceOk: bool, origin: string, referer: string, remoteAddr: Option<string>)

  datatype RestReply = RestError(code: string, message: string, status: int) | RestOk(body: Body)

  /** A header blocks the request when it is set and names a host other than the site's own. */
  predicate Blocks(h: string, homeHost: Option<string>, parseHost: string -> Option<string>) {
    PhpTruthy(h) && parseHost(h).Some? && PhpTruthy(parseHost(h).value) && homeHost != Some(parseHost(h).value)
  }

  predicate OriginOk(req: Request, homeHost: Option<string>, parseHost: string -> Option<string>) {
    !Blocks(req.origin, homeHost, parseHost) && !Blocks(req.referer, homeHost, parseHost)
  }

  /** `$raw = @file_get_contents($path); if (!$raw)`: an encoded dataset is never falsy. */
  predicate Readable(b: Body, readOk: bool) {
    readOk && (b.Json? || PhpTruthy(b.text))
  }

  /** rest_dataset */
  function Rest(st: Store, rnd: nat -> Token, req: Request, homeHost: Option<string>, parseHost: string -> Option<string>, now: int, readOk: bool): (Store, RestReply) {
    if !req.nonceOk then (st, RestError("forbidden", "Invalid nonce", 403))
    else if !OriginOk(req, homeHost, parseHost) then (st, RestError("forbidden", "Cross-origin blocked", 403))
    else
      var d := Step(st.transients, ClientOf(req.remoteAddr), now);
      var st1 := st.(transients := d.transients);
      if !d.admitted then (st1, RestError("too_many", "Rate limit exceeded", 429))
      else
        var (st2, name) := PathCurrent(st1, rnd);
        if name !in st2.files then (st2, RestError("not_found", "Dataset not built", 404))
        else if !Readable(st2.files[name], readOk) then (st2, RestError("server_error", "Unable to read dataset", 500))
        else (st2, RestOk(st2.files[name]))
  }

  function StatusOf(r: RestReply): int {
    match r
    case RestError(_, _, status) => status
    case RestOk(_) => 200
  }

  /** The handler's decision over the outcomes of its five checks, taken in order. */
  function Decide(nonceOk: bool, originOk: bool, admitted: bool, present: bool, readable: bool): (status: int)
    ensures status == 200 <==> nonceOk && originOk && admitted && present && readable
  {
    if !nonceOk || !originOk then 403
    else if !admitted then 429
    else if !present then 404
    else if !readable then 500
    else 200
  }

  // ---------------------------------------------------------------------------
  // Properties

  /** A generated name is a truthy dataset name distinct from the guard files. */
  lemma FileNameShape(t: Token)
    ensures var f := FileName(t);
            EndsWith(f, JsonSuffix) && PhpTruthy(f) && f != HtAccess && f != IndexHtml && f != "." && f != ".."
  {
    var f := FileName(t);
    assert |f| == 45;
    assert f[|f| - 5..] == JsonSuffix;
  }

  /**
    Purging keeps the guard files and every file that is not a dataset, unchanged, and deletes
    every .json file except keep; with a falsy keep, every .json file goes.
  */
  lemma PurgeSpec(st: Store, keep: string)
    ensures var files := Purge(st, keep).files;
            && HtAccess in files && IndexHtml in files
            && (forall f :: f in files ==> f in Secured(st.files) && files[f] == Secured(st.files)[f])
            && (forall f :: f in files && EndsWith(f, JsonSuffix) ==> PhpTruthy(keep) && f == keep)
            && (forall f :: f in st.files && !EndsWith(f, JsonSuffix) ==> f in files && files[f] == st.files[f])
            && (PhpTruthy(keep) && keep in st.files ==> keep in files && files[keep] == st.files[keep])
  {
    assert !EndsWith(HtAccess, JsonSuffix) && !EndsWith(IndexHtml, JsonSuffix);
  }

  /**
    Where a rotated build writes: the fresh name, already stored in the option; the directory
    is secured and holds no other dataset; the fresh name exists only if it existed before.
  */
  lemma RotatedTarget(st: Store, rnd: nat -> Token)
    ensures var (st1, name) := Target(st, rnd, true);
            && name == FileName(rnd(st.draws)) && st1.optFile == name
            && (forall f :: f in st1.files && EndsWith(f, JsonSuffix) ==> f == name)
            && HtAccess in st1.files && IndexHtml in st1.files
            && (name in st1.files <==> name in st.files)
            && st1.optSig == st.optSig && st1.transients == st.transients && st1.draws == st.draws + 1
  {
    var name := FileName(rnd(st.draws));
    var st0 := st.(draws := st.draws + 1).(optFile := name);
    FileNameShape(rnd(st.draws));
    PurgeSpec(st0, name);
    var p := Purge(st0, name);
    assert Secured(p.files) == p.files;
    assert Target(st, rnd, true) == (EnsureDir(p), name) == (p, name);
  }

  /**
    A rotated build that writes: the option names the fresh file, which holds the new payload
    and is the only dataset left; the guard files are in place; the signature is not touched.
  */
  lemma RotatedBuild(st: Store, rnd: nat -> Token, s: Settings, posts: seq<Post>, now: int, size: nat)
    ensures var (st1, r) := Build(st, rnd, s, posts, now, true, WriteOk(size));
            var name := FileName(rnd(st.draws));
            && Completed(r) && r.file == Some(name)
            && st1.optFile == name && name in st1.files && st1.files[name] == Json(Dataset(posts, s, now))
            && (forall f :: f in st1.files && EndsWith(f, JsonSuffix) ==> f == name)
            && HtAccess in st1.files && IndexHtml in st1.files
            && st1.optSig == st.optSig && st1.transients == st.transients && st1.draws == st.draws + 1
  {
    RotatedTarget(st, rnd);
  }

  /**
    A rotated build whose write fails has already stored the fresh name and purged the old
    datasets: the option names a file that does not exist, and no dataset is left.
  */
  lemma RotatedBuildFails(st: Store, rnd: nat -> Token, s: Settings, posts: seq<Post>, now: int)
    requires FileName(rnd(st.draws)) !in st.files
    ensures var (st1, r) := Build(st, rnd, s, posts, now, true, WriteFailed);
            && !Completed(r) && r.message == Some(WriteError)
            && st1.optFile == FileName(rnd(st.draws)) && st1.optFile !in st1.files
            && (forall f :: f in st1.files ==> !EndsWith(f, JsonSuffix))
  {
    RotatedTarget(st, rnd);
  }

  /**
    A build without rotation deletes nothing and changes no file but the current one; it keeps a
    truthy stored name and otherwise stores a fresh one; it succeeds exactly when the write
    does, and then the current file holds the new payload.
  */
  lemma ManualBuild(st: Store, rnd: nat -> Token, s: Settings, posts: seq<Post>, now: int, w: WriteOutcome)
    ensures var (st1, r) := Build(st, rnd, s, posts, now, false, w);
            && (forall f :: f in st.files ==> f in st1.files)
            && (forall f :: f in st.files && f != st1.optFile ==> st1.files[f] == st.files[f])
            && (PhpTruthy(st.optFile) ==> st1.optFile == st.optFile)
            && (!PhpTruthy(st.optFile) ==> st1.optFile == FileName(rnd(st.draws)))
            && (Completed(r) <==> w.WriteOk?)
            && (w.WriteOk? ==> st1.optFile in st1.files && st1.files[st1.optFile] == Json(Dataset(posts, s, now)))
            && (w.WriteFailed? ==> r.message == Some(WriteError))
            && st1.optSig == st.optSig
  {
  }

  /** The daily job stores the current signature exactly when it differed and the rebuild wrote. */
  lemma CronStoresSignature(st: Store, rnd: nat -> Token, s: Settings, site: Site, now: int, w: WriteOutcome, copyOk: bool)
    ensures var current := ContentSignature(site.byModified, s);
            Cron(st, rnd, s, site, now, w, copyOk).optSig ==
              if st.optSig != Some(current) && w.WriteOk? then Some(current) else st.optSig
  {
  }

  /**
    Rotation without rebuild, when the current dataset exists and the copy succeeds: the fresh
    name is stored and holds the old dataset, which is then the only dataset left.
  */
  lemma RotateOnlyKeepsDataset(st: Store, rnd: nat -> Token, s: Settings, posts: seq<Post>, now: int, w: WriteOutcome)
    requires PhpTruthy(st.optFile) && st.optFile in st.files
    ensures var st1 := RotateOnly(st, rnd, s, posts, now, w, true);
            var newName := FileName(rnd(st.draws));
            && st1.optFile == newName && st1.draws == st.draws + 1
            && newName in st1.files && st1.files[newName] == st.files[st.optFile]
            && (forall f :: f in st1.files && EndsWith(f, JsonSuffix) ==> f == newName)
            && st1.optSig == st.optSig
  {
    var newName := FileName(rnd(st.draws));
    FileNameShape(rnd(st.draws));
    var st2 := EnsureDir(EnsureDir(st));
    assert st2.files[st.optFile] == st.files[st.optFile];
    var st4 := st2.(draws := st.draws + 1).(files := st2.files[newName := st2.files[st.optFile]]);
    PurgeSpec(st4.(optFile := newName), newName);
  }

  /**
    The copy's result is not checked: when it fails, the fresh name is stored all the same and
    every dataset, the old one included, is purged.
  */
  lemma RotateOnlyCopyFails(st: Store, rnd: nat -> Token, s: Settings, posts: seq<Post>, now: int, w: WriteOutcome)
    requires PhpTruthy(st.optFile) && st.optFile in st.files
    requires FileName(rnd(st.draws)) !in st.files
    ensures var st1 := RotateOnly(st, rnd, s, posts, now, w, false);
            && st1.optFile == FileName(rnd(st.draws)) && st1.optFile !in st1.files
            && (forall f :: f in st1.files ==> !EndsWith(f, JsonSuffix))
  {
    var newName := FileName(rnd(st.draws));
    FileNameShape(rnd(st.draws));
    var st2 := EnsureDir(EnsureDir(st));
    PurgeSpec(st2.(draws := st.draws + 1).(optFile := newName), newName);
  }

  /** When the stored dataset name has no file, rotation falls back to a full rotated rebuild. */
  lemma RotateOnlyRebuildsMissing(st: Store, rnd: nat -> Token, s: Settings, posts: seq<Post>, now: int, size: nat, copyOk: bool)
    requires PhpTruthy(st.optFile) && EndsWith(st.optFile, JsonSuffix) && st.optFile !in st.files
    ensures var st1 := RotateOnly(st, rnd, s, posts, now, WriteOk(size), copyOk);
            var newName := FileName(rnd(st.draws));
            && st1.optFile == newName && newName in st1.files && st1.files[newName] == Json(Dataset(posts, s, now))
            && (forall f :: f in st1.files && EndsWith(f, JsonSuffix) ==> f == newName)
  {
    var st2 := EnsureDir(EnsureDir(st));
    assert !EndsWith(HtAccess, JsonSuffix) && !EndsWith(IndexHtml, JsonSuffix);
    RotatedBuild(st2, rnd, s, posts, now, size);
  }

  /**
    With no stored name, rotation first draws one and stores it; that file does not exist, so it
    falls back to a full rotated rebuild, which draws a second name and leaves it the only dataset.
  */
  lemma RotateOnlyRebuildsUnnamed(st: Store, rnd: nat -> Token, s: Settings, posts: seq<Post>, now: int, size: nat, copyOk: bool)
    requires !PhpTruthy(st.optFile) && FileName(rnd(st.draws)) !in st.files
    ensures var st1 := RotateOnly(st, rnd, s, posts, now, WriteOk(size), copyOk);
            var newName := FileName(rnd(st.draws + 1));
            && st1.optFile == newName && newName in st1.files && st1.files[newName] == Json(Dataset(posts, s, now))
            && (forall f :: f in st1.files && EndsWith(f, JsonSuffix) ==> f == newName)
            && st1.draws == st.draws + 2
  {
    var name := FileName(rnd(st.draws));
    FileNameShape(rnd(st.draws));
    var st2 := EnsureDir(EnsureDir(st)).(draws := st.draws + 1).(optFile := name);
    assert PathCurrent(EnsureDir(st), rnd) == (st2, name);
    assert name !in st2.files;
    RotatedBuild(st2, rnd, s, posts, now, size);
  }

  /**
    The manual rebuild refuses non-managers and bad nonces without touching anything; otherwise
    it succeeds exactly when the write does, and then stores a freshly computed signature.
  */
  lemma AjaxSpec(st: Store, rnd: nat -> Token, s: Settings, site: Site, now: int, w: WriteOutcome, canManage: bool, nonceOk: bool)
    ensures var (st1, reply) := Ajax(st, rnd, s, site, now, w, canManage, nonceOk);
            && (!canManage ==> st1 == st && reply == AjaxError("Forbidden"))
            && (canManage && !nonceOk ==> st1 == st && reply == AjaxError("Invalid nonce"))
            && (canManage && nonceOk ==>
                  && (reply.AjaxSuccess? <==> w.WriteOk?)
                  && (w.WriteOk? ==> st1.optSig == Some(ContentSignature(site.byModified, s))
                                     && st1.optFile in st1.files
                                     && st1.files[st1.optFile] == Json(Dataset(site.byDate, s, now)))
                  && (w.WriteFailed? ==> reply == AjaxError(WriteError) && st1.optSig == st.optSig))
  {
    ManualBuild(st, rnd, s, site.byDate, now, w);
  }

  /**
    The endpoint answers by the first check that fails: nonce, origin, limiter, presence,
    readability. Refusals on nonce or origin leave the store as it was; past them the limiter's
    step is taken whatever follows, so a 404 or 500 still uses up a request. A 200 serves the
    file the current-name option names.
  */
  lemma RestSpec(st: Store, rnd: nat -> Token, req: Request, homeHost: Option<string>, parseHost: string -> Option<string>, now: int, readOk: bool)
    ensures var (st1, reply) := Rest(st, rnd, req, homeHost, parseHost, now, readOk);
            var d := Step(st.transients, ClientOf(req.remoteAddr), now);
            var (st2, name) := PathCurrent(st.(transients := d.transients), rnd);
            var present := name in st2.files;
            && StatusOf(reply) == Decide(req.nonceOk, OriginOk(req, homeHost, parseHost), d.admitted,
                                         present, present && Readable(st2.files[name], readOk))
            && (!req.nonceOk || !OriginOk(req, homeHost, parseHost) ==> st1 == st)
            && (req.nonceOk && OriginOk(req, homeHost, parseHost) ==> st1.transients == d.transients)
            && (reply.RestOk? ==> st1.optFile in st1.files && reply.body == st1.files[st1.optFile])
  {
  }

  /** The payload's count is its number of documents, which are exactly the selected posts. */
  lemma DatasetSpec(posts: seq<Post>, s: Settings, now: int, id: int)
    ensures var p := Dataset(posts, s, now);
            && p.count == |p.docs|
            && (HasDoc(p.docs, id) <==> Offered(posts, ParseSettings(s), id))
            && (forall i :: 0 <= i < |p.docs| ==> |p.docs[i].text| <= ExcerptLength + 1)
  {
    DocIdSelected(posts, ParseSettings(s), id);
    DocsShort(Select(posts, ParseSettings(s)));
  }
}
