/**
 * One iteration of the watcher's loop (src/main.rs:68-87): render a check,
 * compare the rendering with the check's baseline file, and when it is new
 * send it and store it. The outside world (the HTTP fetch and template
 * rendering, the webhook, the file system) enters through an Observation.
 */
module Checks {
  import opened Wrappers
  import opened Baseline

  /** One configured check: where the JSON comes from and which template renders it. */
  datatype Check = Check(url: string, template: string)

  /** The parsed configuration: the checks in order, the optional webhook and the optional file-name prefix. */
  datatype Config = Config(checks: seq<Check>, slackUrl: Option<string>, contentCachePrefix: Option<string>)

  /** What `perform_check` produced: the rendered text, or the text of the error it failed with. */
  datatype RenderOutcome = Ok(text: string) | Err(message: string)

  /**
   * What the outside world does at one check: the render outcome, whether a
   * POST to the webhook succeeds, and whether writing the baseline file succeeds.
   */
  datatype Observation = Observation(render: RenderOutcome, postSucceeds: bool, writeSucceeds: bool)

  /** A delivered notification: posted to the webhook, or printed on standard output. */
  datatype Message = Posted(webhook: string, text: string) | Printed(text: string)

  /** Why a pass stopped early: an error returned through `?` at line 81 or at line 86. */
  datatype Failure = NotifyFailed | WriteFailed

  /** The baseline files and the notifications delivered so far. */
  datatype State = State(store: Store, sent: seq<Message>)

  /** After one check: go on with the next one, or stop the pass. */
  datatype StepResult = Next(st: State) | Halt(st: State, failure: Failure)

  const ErrorBanner: string := "*Unhandled error:*\n"

  /**
   * The text that goes through change detection: a successful rendering as
   * it is, a failed one as the banner followed by the error's text.
   */
  function Rendering(r: RenderOutcome): (text: string)
    ensures r.Ok? ==> text == r.text
  {
    match r
    case Ok(t) => t
    case Err(m) => ErrorBanner + m
  }

  /** The error text inside a rendering that carries the banner, if it does. */
  function ReportedError(text: string): (m: Option<string>)
    ensures m.Some? ==> text == ErrorBanner + m.value
  {
    if |ErrorBanner| <= |text| && text[..|ErrorBanner|] == ErrorBanner
    then Some(text[|ErrorBanner|..])
    else None
  }

  /** The error folded into a rendering can be read back from it. */
  lemma ErrorRoundTrip(message: string)
    ensures ReportedError(Rendering(Err(message))) == Some(message)
  {
  }

  /** The notification for a rendering: a POST when a webhook is configured, a printed line otherwise. */
  function MessageFor(slackUrl: Option<string>, text: string): (m: Message)
    ensures m.text == text
    ensures m.Posted? <==> slackUrl.Some?
    ensures m.Posted? ==> m.webhook == slackUrl.value
  {
    match slackUrl
    case Some(u) => Posted(u, text)
    case None => Printed(text)
  }

  /** Whether a notification goes through: printing always does, a POST when it succeeds. */
  predicate Delivered(slackUrl: Option<string>, postSucceeds: bool) {
    slackUrl.None? || postSucceeds
  }

  /**
   * The body of the loop once the check has been rendered to `rendered` and
   * its baseline file named `filename`: compare, and when the rendering is
   * new, notify and then store it. The lemmas below state what it guarantees.
   */
  function Step(slackUrl: Option<string>, filename: string, rendered: string,
                postSucceeds: bool, writeSucceeds: bool, st: State): StepResult
  {
    if !ContentHasChanged(st.store, filename, rendered) then Next(st)
    else if !Delivered(slackUrl, postSucceeds) then Halt(st, NotifyFailed)
    else
      var notified := st.(sent := st.sent + [MessageFor(slackUrl, rendered)]);
      if writeSucceeds then Next(notified.(store := Written(st.store, filename, rendered)))
      else Halt(notified, WriteFailed)
  }

  /** An unchanged check sends nothing and leaves every baseline as it was (the `continue` at line 77). */
  lemma StepSkipsUnchanged(slackUrl: Option<string>, filename: string, rendered: string,
                           postSucceeds: bool, writeSucceeds: bool, st: State)
    requires !ContentHasChanged(st.store, filename, rendered)
    ensures Step(slackUrl, filename, rendered, postSucceeds, writeSucceeds, st) == Next(st)
  {
  }

  /** A changed check that does not stop the pass has sent exactly one notification and stored its rendering. */
  lemma StepNotifiesChange(slackUrl: Option<string>, filename: string, rendered: string,
                           postSucceeds: bool, writeSucceeds: bool, st: State)
    requires ContentHasChanged(st.store, filename, rendered)
    requires Step(slackUrl, filename, rendered, postSucceeds, writeSucceeds, st).Next?
    ensures Step(slackUrl, filename, rendered, postSucceeds, writeSucceeds, st).st
            == State(Written(st.store, filename, rendered), st.sent + [MessageFor(slackUrl, rendered)])
  {
  }

  /** After a check that does not stop the pass, its baseline file holds its rendering. */
  lemma StepRecordsRendering(slackUrl: Option<string>, filename: string, rendered: string,
                             postSucceeds: bool, writeSucceeds: bool, st: State)
    requires Step(slackUrl, filename, rendered, postSucceeds, writeSucceeds, st).Next?
    ensures !ContentHasChanged(Step(slackUrl, filename, rendered, postSucceeds, writeSucceeds, st).st.store,
                               filename, rendered)
  {
  }

  /** A check touches no baseline file but its own. */
  lemma StepTouchesOnlyItsFile(slackUrl: Option<string>, filename: string, rendered: string,
                               postSucceeds: bool, writeSucceeds: bool, st: State, f: string)
    requires f != filename
    ensures SameBaseline(st.store, Step(slackUrl, filename, rendered, postSucceeds, writeSucceeds, st).st.store, f)
  {
  }

  /** A check adds at most one notification, and that one carries its rendering. */
  lemma StepSendsAtMostOne(slackUrl: Option<string>, filename: string, rendered: string,
                           postSucceeds: bool, writeSucceeds: bool, st: State)
    ensures var after := Step(slackUrl, filename, rendered, postSucceeds, writeSucceeds, st).st;
            after.sent == st.sent || after.sent == st.sent + [MessageFor(slackUrl, rendered)]
  {
  }

  /** A baseline is written only after the notification of the same text has gone out. */
  lemma StepStoresOnlySent(slackUrl: Option<string>, filename: string, rendered: string,
                           postSucceeds: bool, writeSucceeds: bool, st: State)
    requires Step(slackUrl, filename, rendered, postSucceeds, writeSucceeds, st).st.store != st.store
    ensures var after := Step(slackUrl, filename, rendered, postSucceeds, writeSucceeds, st).st;
            after.store == Written(st.store, filename, rendered)
            && after.sent == st.sent + [MessageFor(slackUrl, rendered)]
  {
  }

  /** The loop stops at a check exactly when it is changed and its notification or its write fails. */
  lemma StepHaltsOnFailure(slackUrl: Option<string>, filename: string, rendered: string,
                           postSucceeds: bool, writeSucceeds: bool, st: State)
    ensures Step(slackUrl, filename, rendered, postSucceeds, writeSucceeds, st).Halt?
            <==> ContentHasChanged(st.store, filename, rendered) && !(Delivered(slackUrl, postSucceeds) && writeSucceeds)
  {
  }

  /**
   * When the loop stops at a check, its baseline is untouched and still reads
   * as changed; a failed notification sent nothing, a failed write comes
   * after the notification went out.
   */
  lemma StepHaltKeepsBaseline(slackUrl: Option<string>, filename: string, rendered: string,
                              postSucceeds: bool, writeSucceeds: bool, st: State)
    requires Step(slackUrl, filename, rendered, postSucceeds, writeSucceeds, st).Halt?
    ensures var r := Step(slackUrl, filename, rendered, postSucceeds, writeSucceeds, st);
            && r.st.store == st.store
            && ContentHasChanged(st.store, filename, rendered)
            && (r.failure == NotifyFailed <==> !Delivered(slackUrl, postSucceeds))
            && (r.failure == NotifyFailed ==> r.st == st)
            && (r.failure == WriteFailed ==> !writeSucceeds && r.st.sent == st.sent + [MessageFor(slackUrl, rendered)])
  {
  }
}
