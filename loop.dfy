/**
 * The `for check in config.checks` loop of src/main.rs:68-87 for any loop
 * body: check `i` runs from the state the previous checks left, and a body
 * that halts ends the pass there, as the `?` operator does. The lemmas here
 * turn facts about one iteration into facts about the whole pass; module
 * Pipeline supplies the real body and its facts.
 */
module Loop {
  import opened Baseline
  import opened Checks

  /** How a pass ended: every check went through, or the pass stopped at check `at`. */
  datatype Outcome = Completed | Aborted(at: nat, failure: Failure)

  datatype PassResult = PassResult(st: State, outcome: Outcome)

  /** What the loop does with check `j` from state `s`. */
  type Body = (nat, State) -> StepResult

  /** Checks `i` to `n - 1` in order from state `st`. */
  function Run(body: Body, n: nat, i: nat, st: State): (r: PassResult)
    requires i <= n
    ensures r.outcome.Aborted? ==> i <= r.outcome.at < n
    decreases n - i
  {
    if i == n then PassResult(st, Completed)
    else
      match body(i, st)
      case Next(st') => Run(body, n, i + 1, st')
      case Halt(st', failure) => PassResult(st', Aborted(i, failure))
  }

  /** Check `j` touches no baseline file other than `key(j)`. */
  ghost predicate TouchesOnlyKeys(body: Body, n: nat, key: nat -> string) {
    forall j: nat, s: State, f: string :: j < n && f != key(j) ==> SameBaseline(s.store, body(j, s).st.store, f)
  }

  /** A check that lets the pass go on leaves its rendering `text(j)` stored under `key(j)`. */
  ghost predicate RecordsTexts(body: Body, n: nat, key: nat -> string, text: nat -> string) {
    forall j: nat, s: State :: j < n && body(j, s).Next? ==> !ContentHasChanged(body(j, s).st.store, key(j), text(j))
  }

  /** A check whose rendering is already stored does nothing. */
  ghost predicate SkipsMatching(body: Body, n: nat, key: nat -> string, text: nat -> string) {
    forall j: nat, s: State :: j < n && !ContentHasChanged(s.store, key(j), text(j)) ==> body(j, s) == Next(s)
  }

  /** A check appends at most one notification and removes none. */
  ghost predicate AppendsAtMostOne(body: Body, n: nat) {
    forall j: nat, s: State :: j < n ==> s.sent <= body(j, s).st.sent && |body(j, s).st.sent| <= |s.sent| + 1
  }

  /** A check that changes a baseline file stores the text of the one notification it appended. */
  ghost predicate StoresWhatItSends(body: Body, n: nat) {
    forall j: nat, s: State, f: string :: j < n && !SameBaseline(s.store, body(j, s).st.store, f) ==>
      && f in body(j, s).st.store
      && |body(j, s).st.sent| == |s.sent| + 1
      && body(j, s).st.sent[|s.sent|].text == body(j, s).st.store[f]
  }

  /** No two checks share a baseline file. */
  ghost predicate DistinctKeys(key: nat -> string, n: nat) {
    forall j: nat, k: nat :: j < k < n ==> key(j) != key(k)
  }

  /** Checks `i` to `n - 1` all find their rendering stored in `store`. */
  ghost predicate Matches(store: Store, key: nat -> string, text: nat -> string, i: nat, n: nat) {
    forall j: nat :: i <= j < n ==> !ContentHasChanged(store, key(j), text(j))
  }

  /** A file that none of the remaining checks is named after comes through the pass unchanged. */
  lemma {:induction false} RunKeepsFile(body: Body, key: nat -> string, n: nat, i: nat, st: State, f: string)
    requires i <= n
    requires TouchesOnlyKeys(body, n, key)
    requires forall j: nat :: i <= j < n ==> key(j) != f
    ensures SameBaseline(st.store, Run(body, n, i, st).st.store, f)
    decreases n - i
  {
    if i < n {
      assert SameBaseline(st.store, body(i, st).st.store, f);
      if body(i, st).Next? {
        RunKeepsFile(body, key, n, i + 1, body(i, st).st, f);
      }
    }
  }

  /** A pass that goes through, over checks with distinct files, leaves every rendering stored. */
  lemma {:induction false} RunRecordsTexts(body: Body, key: nat -> string, text: nat -> string, n: nat, i: nat, st: State)
    requires i <= n
    requires TouchesOnlyKeys(body, n, key) && RecordsTexts(body, n, key, text) && DistinctKeys(key, n)
    requires Run(body, n, i, st).outcome == Completed
    ensures Matches(Run(body, n, i, st).st.store, key, text, i, n)
    decreases n - i
  {
    if i < n {
      var s := body(i, st);
      var r := Run(body, n, i + 1, s.st);
      RunRecordsTexts(body, key, text, n, i + 1, s.st);
      assert !ContentHasChanged(r.st.store, key(i), text(i)) by {
        assert !ContentHasChanged(s.st.store, key(i), text(i));
        RunKeepsFile(body, key, n, i + 1, s.st, key(i));
      }
    }
  }

  /** A pass in which every check finds its rendering stored sends nothing and changes nothing. */
  lemma {:induction false} RunQuiet(body: Body, key: nat -> string, text: nat -> string, n: nat, i: nat, st: State)
    requires i <= n
    requires SkipsMatching(body, n, key, text)
    requires Matches(st.store, key, text, i, n)
    ensures Run(body, n, i, st) == PassResult(st, Completed)
    decreases n - i
  {
    if i < n {
      assert body(i, st) == Next(st);
      RunQuiet(body, key, text, n, i + 1, st);
    }
  }

  /** A pass in which no check halts goes through. */
  lemma {:induction false} RunCompletes(body: Body, n: nat, i: nat, st: State)
    requires i <= n
    requires forall j: nat, s: State :: i <= j < n ==> body(j, s).Next?
    ensures Run(body, n, i, st).outcome == Completed
    decreases n - i
  {
    if i < n {
      RunCompletes(body, n, i + 1, body(i, st).st);
    }
  }

  /**
   * A pass that stopped did so because check `at` halted, from the state
   * `before` that checks `i` to `at - 1` left when run on their own.
   */
  lemma {:induction false} StateBeforeAbort(body: Body, n: nat, i: nat, st: State) returns (before: State)
    requires i <= n
    requires Run(body, n, i, st).outcome.Aborted?
    ensures var r := Run(body, n, i, st);
            && i <= r.outcome.at
            && Run(body, r.outcome.at, i, st) == PassResult(before, Completed)
            && body(r.outcome.at, before) == Halt(r.st, r.outcome.failure)
    decreases n - i
  {
    if body(i, st).Next? {
      before := StateBeforeAbort(body, n, i + 1, body(i, st).st);
    } else {
      before := st;
    }
  }

  /**
   * A pass splits at any check `m`: when checks `i` to `m - 1` go through on
   * their own, the pass continues from the state they left; when they stop,
   * the pass stops there too.
   */
  lemma {:induction false} RunSplits(body: Body, n: nat, m: nat, i: nat, st: State)
    requires i <= m <= n
    ensures Run(body, m, i, st).outcome == Completed ==> Run(body, n, i, st) == Run(body, n, m, Run(body, m, i, st).st)
    ensures Run(body, m, i, st).outcome.Aborted? ==> Run(body, n, i, st) == Run(body, m, i, st)
    decreases m - i
  {
    if i < m && body(i, st).Next? {
      RunSplits(body, n, m, i + 1, body(i, st).st);
    }
  }

  /** Two bodies that agree on every check up to the one a pass stopped at give the same pass. */
  lemma {:induction false} RunIgnoresAfterAbort(body: Body, other: Body, n: nat, i: nat, st: State)
    requires i <= n
    requires Run(body, n, i, st).outcome.Aborted?
    requires forall j: nat, s: State :: i <= j <= Run(body, n, i, st).outcome.at ==> other(j, s) == body(j, s)
    ensures Run(other, n, i, st) == Run(body, n, i, st)
    decreases n - i
  {
    assert other(i, st) == body(i, st);
    if body(i, st).Next? {
      RunIgnoresAfterAbort(body, other, n, i + 1, body(i, st).st);
    }
  }

  /** Two bodies that agree on every remaining check give the same pass. */
  lemma {:induction false} RunAgrees(body: Body, other: Body, n: nat, i: nat, st: State)
    requires i <= n
    requires forall j: nat, s: State :: i <= j < n ==> other(j, s) == body(j, s)
    ensures Run(other, n, i, st) == Run(body, n, i, st)
    decreases n - i
  {
    if i < n {
      assert other(i, st) == body(i, st);
      RunAgrees(body, other, n, i + 1, body(i, st).st);
    }
  }

  /** Notifications are only ever appended during a pass, at most one per check. */
  lemma {:induction false} RunAppends(body: Body, n: nat, i: nat, st: State)
    requires i <= n
    requires AppendsAtMostOne(body, n)
    ensures st.sent <= Run(body, n, i, st).st.sent
    ensures |Run(body, n, i, st).st.sent| <= |st.sent| + (n - i)
    decreases n - i
  {
    if i < n {
      RunAppends(body, n, i + 1, body(i, st).st);
    }
  }

  /** A baseline file that a pass changed holds the text of a notification sent during that pass. */
  lemma {:induction false} RunStoresWhatItSends(body: Body, n: nat, i: nat, st: State, f: string)
    requires i <= n
    requires AppendsAtMostOne(body, n) && StoresWhatItSends(body, n)
    requires !SameBaseline(st.store, Run(body, n, i, st).st.store, f)
    ensures var r := Run(body, n, i, st);
            f in r.st.store && exists k :: |st.sent| <= k < |r.st.sent| && r.st.sent[k].text == r.st.store[f]
    decreases n - i
  {
    var r := Run(body, n, i, st);
    var s := body(i, st).st;
    if body(i, st).Next? && !SameBaseline(s.store, r.st.store, f) {
      RunStoresWhatItSends(body, n, i + 1, s, f);
      RunAppends(body, n, i + 1, s);
      var k :| |s.sent| <= k < |r.st.sent| && r.st.sent[k].text == r.st.store[f];
      assert |st.sent| <= k;
    } else {
      assert !SameBaseline(st.store, s.store, f);
      if body(i, st).Next? {
        RunAppends(body, n, i + 1, s);
        assert r.st.sent[|st.sent|] == s.sent[|st.sent|];
      }
    }
  }
}
