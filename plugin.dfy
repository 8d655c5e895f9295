/**
  The plugin object's dataset methods, on the fields they read and write: the two options, the
  upload directory, the limiter's transients and the random-name stream. Each method is proved to
  take the store exactly to the state its transition in Lifecycle describes.
*/
module DatasetPlugin {
  import opened Util
  import opened InvertedIndex
  import opened RateLimit
  import opened Exclusions
  import opened Signature
  import opened Lifecycle

  class Plugin {
    /** The three exclusion settings, which the admin form (not modelled) edits. */
    const settings: Settings
    /** The tokens wp_generate_password hands out, in order. */
    const random: nat -> Token
    /** The 'fssc_dataset_file' option ("" when unset). */
    var optFile: string
    /** The 'fssc_content_sig' option (None when unset). */
    var optSig: Option<Sig>
    /** The files of the dataset directory. */
    var files: map<string, Body>
    var transients: Transients
    /** How many tokens have been drawn from `random`. */
    var draws: nat

    function State(): Store
      reads this
    {
      Store(optFile, optSig, files, transients, draws)
    }

    constructor(settings: Settings, random: nat -> Token, optFile: string, optSig: Option<Sig>,
                files: map<string, Body>, transients: Transients)
      ensures this.settings == settings
      ensures State() == Store(optFile, optSig, files, transients, 0)
    {
      this.settings := settings;
      this.random := random;
      this.optFile := optFile;
      this.optSig := optSig;
      this.files := files;
      this.transients := transients;
      this.draws := 0;
    }

    /** uploads_dir_secure */
    method UploadsDirSecure()
      modifies this
      ensures State() == EnsureDir(old(State()))
    {
      if HtAccess !in files {
        files := files[HtAccess := Text(DenyAll)];
      }
      if IndexHtml !in files {
        files := files[IndexHtml := Text("")];
      }
    }

    /** generate_new_filename */
    method GenerateNewFilename() returns (name: string)
      modifies this
      ensures (State(), name) == NewName(old(State()), random)
    {
      var token := random(draws);
      draws := draws + 1;
      name := "dataset-" + token + JsonSuffix;
    }

    /** dataset_filename_current */
    method DatasetFilenameCurrent() returns (name: string)
      modifies this
      ensures (State(), name) == FilenameCurrent(old(State()), random)
    {
      name := optFile;
      if !PhpTruthy(name) {
        name := GenerateNewFilename();
        optFile := name;
      }
    }

    /** dataset_path_current, returning the file name within the directory. */
    method DatasetPathCurrent() returns (name: string)
      modifies this
      ensures (State(), name) == PathCurrent(old(State()), random)
    {
      UploadsDirSecure();
      name := DatasetFilenameCurrent();
    }

    /** purge_old_datasets: one pass over the directory's entries. */
    method PurgeOldDatasets(keep: string)
      modifies this
      ensures State() == Purge(old(State()), keep)
    {
      UploadsDirSecure();
      ghost var st := State();
      var items := files.Keys;
      while items != {}
        invariant items <= st.files.Keys
        invariant State() == st.(files := map f | f in st.files && (f in items || !Deletes(f, keep)) :: st.files[f])
        decreases items
      {
        ghost var some := Member(items);
        var f :| f in items;
        if Deletes(f, keep) {
          files := files - {f};
        }
        items := items - {f};
      }
    }

    /** The loop of build_dataset that turns the selected posts into documents. */
    static method CollectDocs(ids: seq<Post>) returns (docs: seq<Doc>)
      ensures docs == Docs(ids)
    {
      docs := [];
      var i := 0;
      while i < |ids|
        invariant 0 <= i <= |ids|
        invariant |docs| == i && forall j :: 0 <= j < i ==> docs[j] == ToDoc(ids[j])
      {
        var p := ids[i];
        docs := docs + [Doc(p.id, p.title, p.url, p.date, p.kind, Excerpt(p.clean, ExcerptLength))];
        i := i + 1;
      }
    }

    /** build_dataset(rotate); `posts` is what WP_Query returns, newest first by date. */
    method BuildDataset(rotate: bool, posts: seq<Post>, now: int, w: WriteOutcome) returns (r: BuildResult)
      modifies this
      ensures (State(), r) == Build(old(State()), random, settings, posts, now, rotate, w)
    {
      var ex := ParseSettings(settings);
      var ids := Select(posts, ex);
      var docs := CollectDocs(ids);
      var payload := Payload(now, |docs|, docs);
      var name;
      if rotate {
        name := GenerateNewFilename();
        optFile := name;
        PurgeOldDatasets(name);
        UploadsDirSecure();
      } else {
        name := DatasetPathCurrent();
      }
      match w
      case WriteFailed =>
        r := BuildResult(Some(false), Some(WriteError), None, None, None);
      case WriteOk(size) =>
        files := files[name := Json(payload)];
        r := BuildResult(None, None, Some(|docs|), Some(size), Some(name));
    }

    /** rotate_filename_without_rebuild; `copyOk` is whether the copy succeeded. */
    method RotateFilenameWithoutRebuild(posts: seq<Post>, now: int, w: WriteOutcome, copyOk: bool)
      modifies this
      ensures State() == RotateOnly(old(State()), random, settings, posts, now, w, copyOk)
    {
      UploadsDirSecure();
      var oldName := DatasetPathCurrent();
      if oldName !in files {
        var _ := BuildDataset(true, posts, now, w);
        return;
      }
      var newName := GenerateNewFilename();
      if copyOk {
        files := files[newName := files[oldName]];
      }
      optFile := newName;
      PurgeOldDatasets(newName);
    }

    /** cron_smart_rebuild_rotate */
    method CronSmartRebuildRotate(site: Site, now: int, w: WriteOutcome, copyOk: bool)
      modifies this
      ensures State() == Cron(old(State()), random, settings, site, now, w, copyOk)
    {
      var current := CurrentSignature(site.byModified, settings);
      if optSig != Some(current) {
        var meta := BuildDataset(true, site.byDate, now, w);
        if Completed(meta) {
          optSig := Some(current);
        }
      } else {
        RotateFilenameWithoutRebuild(site.byDate, now, w, copyOk);
      }
    }

    /** ajax_build_dataset */
    method AjaxBuildDataset(canManage: bool, nonceOk: bool, site: Site, now: int, w: WriteOutcome) returns (reply: AjaxReply)
      modifies this
      ensures (State(), reply) == Ajax(old(State()), random, settings, site, now, w, canManage, nonceOk)
    {
      if !canManage {
        return AjaxError("Forbidden");
      }
      if !nonceOk {
        return AjaxError("Invalid nonce");
      }
      var result := BuildDataset(false, site.byDate, now, w);
      if Completed(result) {
        var sig := CurrentSignature(site.byModified, settings);
        optSig := Some(sig);
        reply := AjaxSuccess(result);
      } else {
        reply := AjaxError(if result.message.Some? then result.message.value else "Build failed");
      }
    }

    /** check_rate_limit */
    method CheckRateLimit(remoteAddr: Option<string>, now: int) returns (ok: bool)
      modifies this
      ensures var d := Step(old(transients), ClientOf(remoteAddr), now);
              ok == d.admitted && State() == old(State()).(transients := d.transients)
    {
      var client := ClientOf(remoteAddr);
      var keyMin := Key(Minute, client);
      var keyHour := Key(Hour, client);
      var minCount := Count(transients, keyMin, now);
      var hourCount := Count(transients, keyHour, now);
      if minCount >= PerMinute {
        return false;
      }
      if hourCount >= PerHour {
        return false;
      }
      transients := transients[keyMin := Counter(minCount + 1, now + MinuteTtl)];
      transients := transients[keyHour := Counter(hourCount + 1, now + HourTtl)];
      return true;
    }

    /** rest_dataset */
    method RestDataset(req: Request, homeHost: Option<string>, parseHost: string -> Option<string>, now: int, readOk: bool)
      returns (reply: RestReply)
      modifies this
      ensures (State(), reply) == Rest(old(State()), random, req, homeHost, parseHost, now, readOk)
    {
      if !req.nonceOk {
        return RestError("forbidden", "Invalid nonce", 403);
      }
      var okOrigin := true;
      var headers := [req.origin, req.referer];
      ghost var blocker := 0;
      var i := 0;
      while i < |headers|
        invariant 0 <= i <= |headers|
        invariant okOrigin && forall j :: 0 <= j < i ==> !Blocks(headers[j], homeHost, parseHost)
      {
        var h := headers[i];
        if PhpTruthy(h) {
          var host := parseHost(h);
          if host.Some? && PhpTruthy(host.value) && homeHost != Some(host.value) {
            okOrigin := false;
            blocker := i;
            break;
          }
        }
        i := i + 1;
      }
      assert !okOrigin ==> 0 <= blocker < 2 && Blocks(headers[blocker], homeHost, parseHost);
      assert headers[0] == req.origin && headers[1] == req.referer;
      assert okOrigin ==> !Blocks(headers[0], homeHost, parseHost) && !Blocks(headers[1], homeHost, parseHost);
      assert okOrigin <==> OriginOk(req, homeHost, parseHost);
      if !okOrigin {
        return RestError("forbidden", "Cross-origin blocked", 403);
      }
      var admitted := CheckRateLimit(req.remoteAddr, now);
      if !admitted {
        return RestError("too_many", "Rate limit exceeded", 429);
      }
      var name := DatasetPathCurrent();
      if name !in files {
        return RestError("not_found", "Dataset not built", 404);
      }
      var raw := files[name];
      if !(readOk && (raw.Json? || PhpTruthy(raw.text))) {
        return RestError("server_error", "Unable to read dataset", 500);
      }
      reply := RestOk(raw);
    }
  }
}
