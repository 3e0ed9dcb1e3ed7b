/**
 * The program's main loop as it runs (src/main.rs:68-87): a watcher holds the
 * baseline files and the notifications sent so far and updates them in place,
 * check by check. RunPass is proved to compute Pipeline.Pass, so every lemma
 * about Pass holds of it.
 */
module Driver {
  import opened CacheKey
  import opened Baseline
  import opened Checks
  import opened Loop
  import opened Pipeline

  class Watcher {
    /** The configuration read at start-up. */
    const config: Config
    /** The baseline files on disk, by file name. */
    var files: Store
    /** The notifications delivered, in order: POSTs to the webhook and lines on standard output. */
    var sent: seq<Message>

    /** A watcher starting from the baseline files already on disk, having sent nothing. */
    constructor (config: Config, files: Store)
      ensures this.config == config && this.files == files && sent == []
    {
      this.config := config;
      this.files := files;
      this.sent := [];
    }

    /** The files and notifications as a value. */
    function Snapshot(): State
      reads this
    {
      State(files, sent)
    }

    /**
     * Lines 80-84: POST the rendering to the webhook when one is configured,
     * print it otherwise. Reports whether the notification went out; a failed
     * POST sends nothing.
     */
    method Notify(rendered: string, postSucceeds: bool) returns (ok: bool)
      modifies this
      ensures ok == Delivered(config.slackUrl, postSucceeds)
      ensures files == old(files)
      ensures sent == if ok then old(sent) + [MessageFor(config.slackUrl, rendered)] else old(sent)
    {
      match config.slackUrl
      case Some(webhook) =>
        if !postSucceeds {
          return false;
        }
        sent := sent + [Posted(webhook, rendered)];
        ok := true;
      case None =>
        sent := sent + [Printed(rendered)];
        ok := true;
    }

    /**
     * `update_content` (lines 49-51): write the new content to the file.
     * Reports whether the write succeeded; a failed write leaves the file as it was.
     */
    method UpdateContent(filename: string, newContent: string, writeSucceeds: bool) returns (ok: bool)
      modifies this
      ensures ok == writeSucceeds
      ensures files == if ok then Written(old(files), filename, newContent) else old(files)
      ensures sent == old(sent)
    {
      if !writeSucceeds {
        return false;
      }
      files := files[filename := newContent];
      ok := true;
    }

    /**
     * One run of the program over its checks, `obs` saying what fetching and
     * rendering, the webhook and the file system do at each. The files and
     * notifications it leaves, and how it ends, are those of Pipeline.Pass with
     * the program's file naming.
     */
    method RunPass(digest: DigestFn, obs: seq<Observation>) returns (outcome: Outcome)
      requires |obs| == |config.checks|
      modifies this
      ensures Pass(config, FileNaming(config, digest), obs, old(Snapshot())) == PassResult(Snapshot(), outcome)
    {
      ghost var body := CheckBody(config, FileNaming(config, digest), obs);
      var i := 0;
      while i < |config.checks|
        invariant 0 <= i <= |obs|
        invariant Run(body, |obs|, i, Snapshot()) == Run(body, |obs|, 0, old(Snapshot()))
      {
        var check := config.checks[i];
        var rendered := Rendering(obs[i].render);
        var prefix := EffectivePrefix(config.contentCachePrefix);
        var filename := prefix + Hex(digest(check.url));
        assert body(i, Snapshot()) == Step(config.slackUrl, filename, rendered, obs[i].postSucceeds, obs[i].writeSucceeds, Snapshot());
        if !ContentHasChanged(files, filename, rendered) {
          i := i + 1;
          continue;
        }
        var delivered := Notify(rendered, obs[i].postSucceeds);
        if !delivered {
          return Aborted(i, NotifyFailed);
        }
        var written := UpdateContent(filename, rendered, obs[i].writeSucceeds);
        if !written {
          return Aborted(i, WriteFailed);
        }
        i := i + 1;
      }
      return Completed;
    }
  }
}
