/**
 * The verb collection across reruns of the page. Every button press reruns
 * the whole script, and each rerun starts with `verbs = load_data()`
 * (app.py line 116). `load_data` carries `@st.cache_data` (app.py lines
 * 92-95): it reads Data.json once and afterwards hands every rerun a fresh
 * copy of that first value, without reading the file again. A save edits the
 * rerun's copy and writes it over Data.json (app.py lines 98-107); it does
 * not touch the cached value. Data.json itself is modelled as the last
 * collection written to it.
 */
module Persistence {
  import opened Wrappers
  import opened Verbs
  import opened Grading

  /** The value `load_data` cached, and what Data.json holds. */
  datatype Store = Store(cached: seq<VerbRecord>, file: seq<VerbRecord>)

  /** The first run reads the file and caches what it read. */
  function Boot(file: seq<VerbRecord>): (st: Store)
    ensures Coherent(st) && st.file == file
  {
    Store(file, file)
  }

  /** The cache still holds what the file holds. */
  predicate Coherent(st: Store) {
    st.cached == st.file
  }

  /** `verbs = load_data()` on a rerun: a copy of the cached value. */
  function Load(st: Store): (vs: seq<VerbRecord>)
    ensures Coherent(st) ==> vs == st.file
  {
    st.cached
  }

  /** A rerun that saves a sentence, as app.py does it: the rerun's copy
      gains the sentence and is written over the file; the cache is left as it was. */
  function SaveAsWritten(st: Store, key: string, sentence: string): (st': Store)
    ensures Load(st') == Load(st)
    ensures st'.file == AddExample(st.cached, key, sentence)
  {
    st.(file := AddExample(Load(st), key, sentence))
  }

  /** The same rerun with the cached load invalidated after the write
      (`load_data.clear()`), so that the next rerun reads the file again. */
  function Save(st: Store, key: string, sentence: string): (st': Store)
    ensures Coherent(st')
    ensures st'.file == AddExample(Load(st), key, sentence)
  {
    var written := AddExample(Load(st), key, sentence);
    Store(written, written)
  }

  /** As written, each save rewrites the file from the first load, so a
      second save forgets the first, and no rerun sees a saved sentence. */
  lemma SaveAsWrittenForgetsEarlierSave(st: Store, key: string, a: string, b: string)
    ensures Load(SaveAsWritten(st, key, a)) == Load(st)
    ensures SaveAsWritten(SaveAsWritten(st, key, a), key, b).file == AddExample(Load(st), key, b)
  {
  }

  /** Saving "A" and then "B" for "go" leaves Data.json with only "B". */
  lemma SaveAsWrittenLosesA()
    ensures var st := SaveAsWritten(SaveAsWritten(Boot([Go()]), "go", "A"), "go", "B");
      Examples(st.file[0]) == ["B"] != ["A", "B"]
  {
    var vs := [Go()];
    SaveAsWrittenForgetsEarlierSave(Boot(vs), "go", "A", "B");
    assert FirstMatch(vs, "go") == Some(0);
    AddExampleChangesOnlyFirstMatch(vs, "go", "B", 0);
    assert ["B"] != ["A", "B"] by { assert |["B"]| != |["A", "B"]|; }
  }

  /** Corrected: with the cache kept coherent, each save extends the file
      that the previous saves wrote. */
  lemma SaveExtendsFile(st: Store, key: string, sentence: string)
    requires Coherent(st)
    ensures Coherent(Save(st, key, sentence))
    ensures Save(st, key, sentence).file == AddExample(st.file, key, sentence)
    ensures Load(Save(st, key, sentence)) == Save(st, key, sentence).file
  {
  }

  /** Corrected: saving "A" then "B" on the same verb leaves both in the
      file, in that order, and the next rerun loads them. */
  lemma SaveKeepsBothSentences(st: Store, key: string, a: string, b: string, i: nat)
    requires Coherent(st)
    requires FirstMatch(st.file, key) == Some(i)
    ensures var st' := Save(Save(st, key, a), key, b);
      && Coherent(st')
      && Examples(st'.file[i]) == Examples(st.file[i]) + [a, b]
  {
    SaveExtendsFile(st, key, a);
    SaveExtendsFile(Save(st, key, a), key, b);
    SavesKeepOrder(st.file, key, a, b, i);
  }
}
