/**
 * The baseline store: the last notified rendering of each check, kept in a
 * file named after the check (src/main.rs:40-51). The files are a map from
 * file name to text; a name that is absent stands for a file that was never
 * written or that could not be read.
 */
module Baseline {
  type Store = map<string, string>

  /**
   * `content_has_changed`: there is something new to send unless a baseline
   * was read and equals the new content character for character.
   */
  function ContentHasChanged(store: Store, filename: string, newContent: string): (changed: bool)
    ensures filename !in store ==> changed
    ensures !changed <==> filename in store && store[filename] == newContent
  {
    if filename in store then newContent != store[filename] else true
  }

  /**
   * `update_content` when the write succeeds: the file now holds exactly the
   * new content, so reading it back reports no change, and no other file is touched.
   */
  function Written(store: Store, filename: string, newContent: string): (after: Store)
    ensures !ContentHasChanged(after, filename, newContent)
    ensures after.Keys == store.Keys + {filename}
    ensures forall f :: f in store && f != filename ==> after[f] == store[f]
  {
    store[filename := newContent]
  }

  /** File `f` is present in both stores or in neither, with the same text. */
  predicate SameBaseline(before: Store, after: Store, f: string) {
    (f in after <==> f in before) && (f in before ==> after[f] == before[f])
  }
}
