/**
 * One pass of the watcher over its checks (src/main.rs:68-87), as a pure
 * function of the configuration, the naming of baseline files, what the
 * outside world does at each check, and the state before the pass. The
 * lemmas hold for any naming; FileNaming is the one the program uses. The
 * class in module Driver runs the same pass in place and is proved to
 * compute this function.
 */
module Pipeline {
  import opened Wrappers
  import opened CacheKey
  import opened Baseline
  import opened Checks
  import opened Loop

  /** How a check's URL is turned into the name of its baseline file. */
  type Naming = string -> string

  /** The baseline file of each check. */
  function KeyOf(cfg: Config, name: Naming): nat -> string {
    (j: nat) => if j < |cfg.checks| then name(cfg.checks[j].url) else ""
  }

  /** The text each check puts through change detection. */
  function TextOf(obs: seq<Observation>): nat -> string {
    (j: nat) => if j < |obs| then Rendering(obs[j].render) else ""
  }

  /** The loop body of the program: check `j` with its rendering, its file name and what the webhook and the file system do. */
  function CheckBody(cfg: Config, name: Naming, obs: seq<Observation>): Body
    requires |obs| == |cfg.checks|
  {
    (j: nat, s: State) =>
      if j < |obs| then
        Step(cfg.slackUrl, name(cfg.checks[j].url), Rendering(obs[j].render), obs[j].postSucceeds, obs[j].writeSucceeds, s)
      else Next(s)
  }

  /** The whole loop, from the first check on. */
  function Pass(cfg: Config, name: Naming, obs: seq<Observation>, st: State): (r: PassResult)
    requires |obs| == |cfg.checks|
    ensures r.outcome.Aborted? ==> r.outcome.at < |cfg.checks|
  {
    Run(CheckBody(cfg, name, obs), |obs|, 0, st)
  }

  /** No two checks share a baseline file. */
  ghost predicate DistinctNames(cfg: Config, name: Naming) {
    forall j, k :: 0 <= j < k < |cfg.checks| ==> name(cfg.checks[j].url) != name(cfg.checks[k].url)
  }

  /** Every check finds its current rendering stored as its baseline. */
  ghost predicate BaselinesMatch(cfg: Config, name: Naming, obs: seq<Observation>, store: Store)
    requires |obs| == |cfg.checks|
  {
    forall j :: 0 <= j < |obs| ==> !ContentHasChanged(store, name(cfg.checks[j].url), Rendering(obs[j].render))
  }

  /** The program's loop body touches no baseline file but the current check's. */
  lemma BodyTouchesOnlyKeys(cfg: Config, name: Naming, obs: seq<Observation>)
    requires |obs| == |cfg.checks|
    ensures TouchesOnlyKeys(CheckBody(cfg, name, obs), |obs|, KeyOf(cfg, name))
  {
    var body := CheckBody(cfg, name, obs);
    forall j: nat, s: State, f: string | j < |obs| && f != KeyOf(cfg, name)(j)
      ensures SameBaseline(s.store, body(j, s).st.store, f)
    {
      StepTouchesOnlyItsFile(cfg.slackUrl, name(cfg.checks[j].url), Rendering(obs[j].render),
                             obs[j].postSucceeds, obs[j].writeSucceeds, s, f);
    }
  }

  /** The program's loop body, when it lets the pass go on, leaves the check's rendering stored. */
  lemma BodyRecordsTexts(cfg: Config, name: Naming, obs: seq<Observation>)
    requires |obs| == |cfg.checks|
    ensures RecordsTexts(CheckBody(cfg, name, obs), |obs|, KeyOf(cfg, name), TextOf(obs))
  {
    var body := CheckBody(cfg, name, obs);
    forall j: nat, s: State | j < |obs| && body(j, s).Next?
      ensures !ContentHasChanged(body(j, s).st.store, KeyOf(cfg, name)(j), TextOf(obs)(j))
    {
      StepRecordsRendering(cfg.slackUrl, name(cfg.checks[j].url), Rendering(obs[j].render),
                           obs[j].postSucceeds, obs[j].writeSucceeds, s);
    }
  }

  /** The program's loop body does nothing for a check whose rendering is already stored. */
  lemma BodySkipsMatching(cfg: Config, name: Naming, obs: seq<Observation>)
    requires |obs| == |cfg.checks|
    ensures SkipsMatching(CheckBody(cfg, name, obs), |obs|, KeyOf(cfg, name), TextOf(obs))
  {
    var body := CheckBody(cfg, name, obs);
    forall j: nat, s: State | j < |obs| && !ContentHasChanged(s.store, KeyOf(cfg, name)(j), TextOf(obs)(j))
      ensures body(j, s) == Next(s)
    {
      StepSkipsUnchanged(cfg.slackUrl, name(cfg.checks[j].url), Rendering(obs[j].render),
                         obs[j].postSucceeds, obs[j].writeSucceeds, s);
    }
  }

  /** The program's loop body appends at most one notification. */
  lemma BodyAppendsAtMostOne(cfg: Config, name: Naming, obs: seq<Observation>)
    requires |obs| == |cfg.checks|
    ensures AppendsAtMostOne(CheckBody(cfg, name, obs), |obs|)
  {
    var body := CheckBody(cfg, name, obs);
    forall j: nat, s: State | j < |obs|
      ensures s.sent <= body(j, s).st.sent && |body(j, s).st.sent| <= |s.sent| + 1
    {
      StepSendsAtMostOne(cfg.slackUrl, name(cfg.checks[j].url), Rendering(obs[j].render),
                         obs[j].postSucceeds, obs[j].writeSucceeds, s);
    }
  }

  /** The program's loop body stores only the text of the notification it just sent. */
  lemma BodyStoresWhatItSends(cfg: Config, name: Naming, obs: seq<Observation>)
    requires |obs| == |cfg.checks|
    ensures StoresWhatItSends(CheckBody(cfg, name, obs), |obs|)
  {
    var body := CheckBody(cfg, name, obs);
    forall j: nat, s: State, f: string | j < |obs| && !SameBaseline(s.store, body(j, s).st.store, f)
      ensures && f in body(j, s).st.store
              && |body(j, s).st.sent| == |s.sent| + 1
              && body(j, s).st.sent[|s.sent|].text == body(j, s).st.store[f]
    {
      var filename, text := name(cfg.checks[j].url), Rendering(obs[j].render);
      StepStoresOnlySent(cfg.slackUrl, filename, text, obs[j].postSucceeds, obs[j].writeSucceeds, s);
      if f != filename {
        StepTouchesOnlyItsFile(cfg.slackUrl, filename, text, obs[j].postSucceeds, obs[j].writeSucceeds, s, f);
      }
    }
  }

  /** Distinct file names for the checks, restated for the generic loop. */
  lemma DistinctNamesGiveDistinctKeys(cfg: Config, name: Naming)
    requires DistinctNames(cfg, name)
    ensures DistinctKeys(KeyOf(cfg, name), |cfg.checks|)
  {
  }

  /** A pass leaves alone every baseline file that none of the checks is named after. */
  lemma PassKeepsOtherBaselines(cfg: Config, name: Naming, obs: seq<Observation>, st: State, f: string)
    requires |obs| == |cfg.checks|
    requires forall j :: 0 <= j < |cfg.checks| ==> name(cfg.checks[j].url) != f
    ensures SameBaseline(st.store, Pass(cfg, name, obs, st).st.store, f)
  {
    BodyTouchesOnlyKeys(cfg, name, obs);
    forall j: nat | j < |obs| ensures KeyOf(cfg, name)(j) != f {
      assert name(cfg.checks[j].url) != f;
    }
    RunKeepsFile(CheckBody(cfg, name, obs), KeyOf(cfg, name), |obs|, 0, st, f);
  }

  /**
   * When no two checks share a baseline file, a pass that goes through
   * leaves every check's rendering stored as its baseline.
   */
  lemma CompletedPassRecordsRenderings(cfg: Config, name: Naming, obs: seq<Observation>, st: State)
    requires |obs| == |cfg.checks|
    requires DistinctNames(cfg, name)
    requires Pass(cfg, name, obs, st).outcome == Completed
    ensures BaselinesMatch(cfg, name, obs, Pass(cfg, name, obs, st).st.store)
  {
    BodyTouchesOnlyKeys(cfg, name, obs);
    BodyRecordsTexts(cfg, name, obs);
    DistinctNamesGiveDistinctKeys(cfg, name);
    RunRecordsTexts(CheckBody(cfg, name, obs), KeyOf(cfg, name), TextOf(obs), |obs|, 0, st);
    var store := Pass(cfg, name, obs, st).st.store;
    forall j | 0 <= j < |obs|
      ensures !ContentHasChanged(store, name(cfg.checks[j].url), Rendering(obs[j].render))
    {
      assert !ContentHasChanged(store, KeyOf(cfg, name)(j), TextOf(obs)(j));
    }
  }

  /** When every check finds its rendering already stored, the pass sends nothing and changes nothing. */
  lemma MatchingBaselinesGiveQuietPass(cfg: Config, name: Naming, obs: seq<Observation>, st: State)
    requires |obs| == |cfg.checks|
    requires BaselinesMatch(cfg, name, obs, st.store)
    ensures Pass(cfg, name, obs, st) == PassResult(st, Completed)
  {
    BodySkipsMatching(cfg, name, obs);
    forall j: nat | j < |obs|
      ensures !ContentHasChanged(st.store, KeyOf(cfg, name)(j), TextOf(obs)(j))
    {
      assert !ContentHasChanged(st.store, name(cfg.checks[j].url), Rendering(obs[j].render));
    }
    RunQuiet(CheckBody(cfg, name, obs), KeyOf(cfg, name), TextOf(obs), |obs|, 0, st);
  }

  /**
   * Idempotence: after a pass that went through, over checks that do not
   * share baseline files, a second pass that renders the same texts sends no
   * notification and leaves every baseline as it was, whatever the webhook
   * and the file system would have done.
   */
  lemma SecondPassIsQuiet(cfg: Config, name: Naming, first: seq<Observation>, second: seq<Observation>, st: State)
    requires |first| == |cfg.checks| && |second| == |cfg.checks|
    requires DistinctNames(cfg, name)
    requires forall j :: 0 <= j < |first| ==> second[j].render == first[j].render
    requires Pass(cfg, name, first, st).outcome == Completed
    ensures var mid := Pass(cfg, name, first, st).st;
            Pass(cfg, name, second, mid) == PassResult(mid, Completed)
  {
    var mid := Pass(cfg, name, first, st).st;
    CompletedPassRecordsRenderings(cfg, name, first, st);
    assert BaselinesMatch(cfg, name, second, mid.store) by {
      forall j | 0 <= j < |second|
        ensures !ContentHasChanged(mid.store, name(cfg.checks[j].url), Rendering(second[j].render))
      {
        assert second[j].render == first[j].render;
      }
    }
    MatchingBaselinesGiveQuietPass(cfg, name, second, mid);
  }

  /** Checks `0` to `j - 1` of a pass, run on their own: the state in which check `j` starts. */
  function PassUpTo(cfg: Config, name: Naming, obs: seq<Observation>, st: State, j: nat): (r: PassResult)
    requires |obs| == |cfg.checks| && j <= |obs|
    ensures r.outcome.Aborted? ==> r.outcome.at < j
  {
    Run(CheckBody(cfg, name, obs), j, 0, st)
  }

  /**
   * A check seen for the first time is notified: after a pass that went
   * through, the rendering of a check whose baseline file was missing at the
   * start, an empty one included, is among the notifications sent during the
   * pass. This holds even when checks share a file, in which case an earlier
   * check may be the one that sent it.
   */
  lemma FirstSightNotifies(cfg: Config, name: Naming, obs: seq<Observation>, st: State, j: nat)
    requires |obs| == |cfg.checks| && j < |obs|
    requires Pass(cfg, name, obs, st).outcome == Completed
    requires name(cfg.checks[j].url) !in st.store
    ensures var r := Pass(cfg, name, obs, st);
            exists k :: |st.sent| <= k < |r.st.sent| && r.st.sent[k].text == Rendering(obs[j].render)
  {
    var body := CheckBody(cfg, name, obs);
    var r := Pass(cfg, name, obs, st);
    var key, text := name(cfg.checks[j].url), Rendering(obs[j].render);
    var pre := PassUpTo(cfg, name, obs, st, j);
    RunSplits(body, |obs|, j, 0, st);
    assert pre.outcome == Completed;
    var mid := pre.st;
    BodyAppendsAtMostOne(cfg, name, obs);
    RunAppends(body, j, 0, st);
    if ContentHasChanged(mid.store, key, text) {
      assert body(j, mid).Next?;
      StepNotifiesChange(cfg.slackUrl, key, text, obs[j].postSucceeds, obs[j].writeSucceeds, mid);
      RunAppends(body, |obs|, j + 1, body(j, mid).st);
      assert r.st.sent[|mid.sent|] == body(j, mid).st.sent[|mid.sent|];
    } else {
      BodyStoresWhatItSends(cfg, name, obs);
      assert !SameBaseline(st.store, mid.store, key);
      RunStoresWhatItSends(body, j, 0, st, key);
      var k :| |st.sent| <= k < |mid.sent| && mid.sent[k].text == mid.store[key];
      RunAppends(body, |obs|, j, mid);
      assert r.st.sent[k] == mid.sent[k];
    }
  }

  /**
   * With no two checks sharing a file, first sight notifies at the check
   * itself: check `j`, whose baseline file was missing at the start, appends
   * exactly one notification of its rendering and writes its baseline, and
   * that notification stays in what the pass sent.
   */
  lemma FirstSightNotifiesOnce(cfg: Config, name: Naming, obs: seq<Observation>, st: State, j: nat)
    requires |obs| == |cfg.checks| && j < |obs|
    requires DistinctNames(cfg, name)
    requires Pass(cfg, name, obs, st).outcome == Completed
    requires name(cfg.checks[j].url) !in st.store
    ensures var pre := PassUpTo(cfg, name, obs, st, j);
            var m := MessageFor(cfg.slackUrl, Rendering(obs[j].render));
            && pre.outcome == Completed
            && CheckBody(cfg, name, obs)(j, pre.st)
               == Next(State(Written(pre.st.store, name(cfg.checks[j].url), Rendering(obs[j].render)), pre.st.sent + [m]))
            && pre.st.sent + [m] <= Pass(cfg, name, obs, st).st.sent
  {
    var body := CheckBody(cfg, name, obs);
    var key, text := name(cfg.checks[j].url), Rendering(obs[j].render);
    var pre := PassUpTo(cfg, name, obs, st, j);
    RunSplits(body, |obs|, j, 0, st);
    var mid := pre.st;
    BodyTouchesOnlyKeys(cfg, name, obs);
    forall i: nat | i < j ensures KeyOf(cfg, name)(i) != key {
      assert name(cfg.checks[i].url) != key;
    }
    assert TouchesOnlyKeys(body, j, KeyOf(cfg, name));
    RunKeepsFile(body, KeyOf(cfg, name), j, 0, st, key);
    assert key !in mid.store;
    assert body(j, mid).Next?;
    StepNotifiesChange(cfg.slackUrl, key, text, obs[j].postSucceeds, obs[j].writeSucceeds, mid);
    BodyAppendsAtMostOne(cfg, name, obs);
    RunAppends(body, |obs|, j + 1, body(j, mid).st);
  }

  /**
   * A pass that stops at a check ignores every later check: whatever their
   * renderings, webhook responses or writes would be, the result is the same.
   */
  lemma AbortIgnoresLaterChecks(cfg: Config, name: Naming, obs: seq<Observation>, other: seq<Observation>, st: State)
    requires |obs| == |cfg.checks| && |other| == |cfg.checks|
    requires Pass(cfg, name, obs, st).outcome.Aborted?
    requires forall t :: 0 <= t <= Pass(cfg, name, obs, st).outcome.at ==> other[t] == obs[t]
    ensures Pass(cfg, name, other, st) == Pass(cfg, name, obs, st)
  {
    var at := Pass(cfg, name, obs, st).outcome.at;
    var body, otherBody := CheckBody(cfg, name, obs), CheckBody(cfg, name, other);
    forall j: nat, s: State | j <= at ensures otherBody(j, s) == body(j, s) {
      assert other[j] == obs[j];
    }
    RunIgnoresAfterAbort(body, otherBody, |obs|, 0, st);
  }

  /**
   * The check a pass stopped at still reads as changed, so the next pass
   * retries it; the pass stopped on a failed notification exactly when that
   * check's POST failed, and otherwise on a failed write.
   */
  lemma AbortedCheckStaysPending(cfg: Config, name: Naming, obs: seq<Observation>, st: State)
    requires |obs| == |cfg.checks|
    requires Pass(cfg, name, obs, st).outcome.Aborted?
    ensures var r := Pass(cfg, name, obs, st);
            var at := r.outcome.at;
            && ContentHasChanged(r.st.store, name(cfg.checks[at].url), Rendering(obs[at].render))
            && (r.outcome.failure == NotifyFailed <==> !Delivered(cfg.slackUrl, obs[at].postSucceeds))
            && (r.outcome.failure == WriteFailed ==> !obs[at].writeSucceeds)
  {
    var at := Pass(cfg, name, obs, st).outcome.at;
    var before := StateBeforeAbort(CheckBody(cfg, name, obs), |obs|, 0, st);
    StepHaltKeepsBaseline(cfg.slackUrl, name(cfg.checks[at].url), Rendering(obs[at].render),
                          obs[at].postSucceeds, obs[at].writeSucceeds, before);
  }

  /**
   * When a pass stops because a baseline write failed, the notification for
   * that check has already gone out: it is the last one sent.
   */
  lemma FailedWriteFollowsNotification(cfg: Config, name: Naming, obs: seq<Observation>, st: State)
    requires |obs| == |cfg.checks|
    requires Pass(cfg, name, obs, st).outcome.Aborted?
    requires Pass(cfg, name, obs, st).outcome.failure == WriteFailed
    ensures var r := Pass(cfg, name, obs, st);
            |r.st.sent| > 0 && r.st.sent[|r.st.sent| - 1] == MessageFor(cfg.slackUrl, Rendering(obs[r.outcome.at].render))
  {
    var at := Pass(cfg, name, obs, st).outcome.at;
    var before := StateBeforeAbort(CheckBody(cfg, name, obs), |obs|, 0, st);
    StepHaltKeepsBaseline(cfg.slackUrl, name(cfg.checks[at].url), Rendering(obs[at].render),
                          obs[at].postSucceeds, obs[at].writeSucceeds, before);
  }

  /** Notifications are only ever appended during a pass, at most one per check. */
  lemma NotificationsAppended(cfg: Config, name: Naming, obs: seq<Observation>, st: State)
    requires |obs| == |cfg.checks|
    ensures st.sent <= Pass(cfg, name, obs, st).st.sent
    ensures |Pass(cfg, name, obs, st).st.sent| <= |st.sent| + |cfg.checks|
  {
    BodyAppendsAtMostOne(cfg, name, obs);
    RunAppends(CheckBody(cfg, name, obs), |obs|, 0, st);
  }

  /**
   * A baseline file that a pass changed holds the text of one of the
   * notifications that pass sent: nothing is stored that was not sent first.
   */
  lemma WrittenBaselinesWereSent(cfg: Config, name: Naming, obs: seq<Observation>, st: State, f: string)
    requires |obs| == |cfg.checks|
    requires !SameBaseline(st.store, Pass(cfg, name, obs, st).st.store, f)
    ensures var r := Pass(cfg, name, obs, st);
            f in r.st.store && exists k :: |st.sent| <= k < |r.st.sent| && r.st.sent[k].text == r.st.store[f]
  {
    BodyAppendsAtMostOne(cfg, name, obs);
    BodyStoresWhatItSends(cfg, name, obs);
    RunStoresWhatItSends(CheckBody(cfg, name, obs), |obs|, 0, st, f);
  }

  /**
   * A failed rendering goes through exactly the path a successful rendering
   * of the banner and the error's text would: putting one in place of the
   * other at any check changes nothing about the pass.
   */
  lemma ErrorFlowsLikeRendering(cfg: Config, name: Naming, obs: seq<Observation>, st: State, j: nat)
    requires |obs| == |cfg.checks| && j < |obs|
    requires obs[j].render.Err?
    ensures var folded := obs[j].(render := Ok(ErrorBanner + obs[j].render.message));
            Pass(cfg, name, obs[j := folded], st) == Pass(cfg, name, obs, st)
  {
    var folded := obs[j].(render := Ok(ErrorBanner + obs[j].render.message));
    var body, otherBody := CheckBody(cfg, name, obs), CheckBody(cfg, name, obs[j := folded]);
    forall t: nat, s: State | t < |obs| ensures otherBody(t, s) == body(t, s) {
      assert Rendering(obs[j := folded][t].render) == Rendering(obs[t].render);
    }
    RunAgrees(body, otherBody, |obs|, 0, st);
  }

  /**
   * Render failures never stop a pass: when every notification and every
   * baseline write would succeed, the pass goes through whatever the
   * renderings are, failed ones included.
   */
  lemma RenderFailuresDoNotStopPass(cfg: Config, name: Naming, obs: seq<Observation>, st: State)
    requires |obs| == |cfg.checks|
    requires forall t :: 0 <= t < |obs| ==> Delivered(cfg.slackUrl, obs[t].postSucceeds) && obs[t].writeSucceeds
    ensures Pass(cfg, name, obs, st).outcome == Completed
  {
    var body := CheckBody(cfg, name, obs);
    forall t: nat, s: State | t < |obs| ensures body(t, s).Next? {
      StepHaltsOnFailure(cfg.slackUrl, name(cfg.checks[t].url), Rendering(obs[t].render),
                         obs[t].postSucceeds, obs[t].writeSucceeds, s);
    }
    RunCompletes(body, |obs|, 0, st);
  }

  /** How the program names baseline files: the prefix in force, then the hex of the URL's digest. */
  function FileNaming(cfg: Config, digest: DigestFn): Naming {
    u => ContentFilename(cfg.contentCachePrefix, digest, u)
  }

  /** No two checks' URLs have the same digest. */
  predicate DistinctDigests(cfg: Config, digest: DigestFn) {
    forall j, k :: 0 <= j < k < |cfg.checks| ==> digest(cfg.checks[j].url) != digest(cfg.checks[k].url)
  }

  /** Checks share a baseline file exactly when their URLs share a digest. */
  lemma DistinctDigestsGiveDistinctNames(cfg: Config, digest: DigestFn)
    ensures DistinctNames(cfg, FileNaming(cfg, digest)) <==> DistinctDigests(cfg, digest)
  {
    var name := FileNaming(cfg, digest);
    forall j, k | 0 <= j < k < |cfg.checks|
      ensures name(cfg.checks[j].url) == name(cfg.checks[k].url) <==> digest(cfg.checks[j].url) == digest(cfg.checks[k].url)
    {
      FilenameIdentifiesDigest(cfg.contentCachePrefix, digest, cfg.checks[j].url, cfg.checks[k].url);
    }
  }

  /**
   * Idempotence as the program has it: when no two checks' URLs share a
   * digest, a pass that went through is followed by a quiet one.
   */
  lemma PassIsIdempotent(cfg: Config, digest: DigestFn, first: seq<Observation>, second: seq<Observation>, st: State)
    requires |first| == |cfg.checks| && |second| == |cfg.checks|
    requires DistinctDigests(cfg, digest)
    requires forall j :: 0 <= j < |first| ==> second[j].render == first[j].render
    requires Pass(cfg, FileNaming(cfg, digest), first, st).outcome == Completed
    ensures var mid := Pass(cfg, FileNaming(cfg, digest), first, st).st;
            Pass(cfg, FileNaming(cfg, digest), second, mid) == PassResult(mid, Completed)
  {
    DistinctDigestsGiveDistinctNames(cfg, digest);
    SecondPassIsQuiet(cfg, FileNaming(cfg, digest), first, second, st);
  }

  /**
   * Without distinct file names idempotence fails: two checks on one URL that
   * render differently overwrite each other's baseline, so every pass notifies.
   */
  lemma SharedUrlRenotifies(name: Naming)
    ensures var cfg := Config([Check("u", "a.hbs"), Check("u", "b.hbs")], None, None);
            var obs := [Observation(Ok("a"), true, true), Observation(Ok("b"), true, true)];
            var first := Pass(cfg, name, obs, State(map[], []));
            first.outcome == Completed
            && Pass(cfg, name, obs, first.st)
               == PassResult(State(first.st.store, first.st.sent + [Printed("a"), Printed("b")]), Completed)
  {
    var cfg := Config([Check("u", "a.hbs"), Check("u", "b.hbs")], None, None);
    var obs := [Observation(Ok("a"), true, true), Observation(Ok("b"), true, true)];
    var body := CheckBody(cfg, name, obs);
    var key := name("u");
    assert cfg.checks[0].url == cfg.checks[1].url == "u";
    assert Rendering(obs[0].render) == "a" && Rendering(obs[1].render) == "b";
    var s0 := State(map[], []);
    var s1 := State(map[key := "a"], [Printed("a")]);
    assert body(0, s0) == Step(None, key, "a", true, true, s0) == Next(s1);
    var s2 := State(map[key := "b"], [Printed("a"), Printed("b")]);
    assert body(1, s1) == Step(None, key, "b", true, true, s1) == Next(s2);
    assert Run(body, 2, 1, s1) == PassResult(s2, Completed);
    var s3 := State(map[key := "a"], s2.sent + [Printed("a")]);
    assert body(0, s2) == Step(None, key, "a", true, true, s2) == Next(s3);
    var s4 := State(map[key := "b"], s2.sent + [Printed("a"), Printed("b")]);
    assert body(1, s3) == Step(None, key, "b", true, true, s3) == Next(s4);
    assert Run(body, 2, 1, s3) == PassResult(s4, Completed);
  }

  /**
   * The scenario of one check rendering "Hello x", then "Hello x" again, then
   * "Hello y", printed to standard output: the first and third passes notify
   * and store, the second does nothing.
   */
  lemma HelloScenario(name: Naming)
    ensures var cfg := Config([Check("http://example.test/data.json", "hello.hbs")], None, None);
            var key := name("http://example.test/data.json");
            var x, y := [Observation(Ok("Hello x"), true, true)], [Observation(Ok("Hello y"), true, true)];
            var p1 := Pass(cfg, name, x, State(map[], []));
            var p2 := Pass(cfg, name, x, p1.st);
            var p3 := Pass(cfg, name, y, p2.st);
            && p1 == PassResult(State(map[key := "Hello x"], [Printed("Hello x")]), Completed)
            && p2 == p1
            && p3 == PassResult(State(map[key := "Hello y"], [Printed("Hello x"), Printed("Hello y")]), Completed)
  {
    var cfg := Config([Check("http://example.test/data.json", "hello.hbs")], None, None);
    var key := name("http://example.test/data.json");
    var x, y := [Observation(Ok("Hello x"), true, true)], [Observation(Ok("Hello y"), true, true)];
    assert cfg.checks[0].url == "http://example.test/data.json";
    assert Rendering(x[0].render) == "Hello x" && Rendering(y[0].render) == "Hello y";
    var s0 := State(map[], []);
    var s1 := State(map[key := "Hello x"], [Printed("Hello x")]);
    assert CheckBody(cfg, name, x)(0, s0) == Step(None, key, "Hello x", true, true, s0) == Next(s1);
    assert Run(CheckBody(cfg, name, x), 1, 1, s1) == PassResult(s1, Completed);
    assert Pass(cfg, name, x, s0) == PassResult(s1, Completed);
    assert CheckBody(cfg, name, x)(0, s1) == Step(None, key, "Hello x", true, true, s1) == Next(s1);
    assert Pass(cfg, name, x, s1) == PassResult(s1, Completed);
    var s3 := State(map[key := "Hello y"], [Printed("Hello x"), Printed("Hello y")]);
    assert CheckBody(cfg, name, y)(0, s1) == Step(None, key, "Hello y", true, true, s1) == Next(s3);
    assert Run(CheckBody(cfg, name, y), 1, 1, s3) == PassResult(s3, Completed);
    assert Pass(cfg, name, y, s1) == PassResult(s3, Completed);
  }
}
