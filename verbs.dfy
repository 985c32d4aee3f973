/**
 * The verb collection: one record per irregular verb, and the one mutation
 * the application makes to it, appending a learner's sentence to a verb's
 * `user_examples` list (`save_user_example`, app.py lines 98-104).
 */
module Verbs {
  import opened Wrappers

  /** One object of the verb collection. `userExamples` is `None` while the
      record has no `user_examples` key at all. */
  datatype VerbRecord = VerbRecord(
    v1: string,
    v2: string,
    v3: string,
    meaning: string,
    example: string,
    exampleMeaning: string,
    userExamples: Option<seq<string>>)

  /** The saved sentences of a record; an absent key reads as none. */
  function Examples(r: VerbRecord): seq<string> {
    match r.userExamples
    case None => []
    case Some(xs) => xs
  }

  /** `r` with `sentence` appended to its `user_examples`, the key created if absent. */
  function WithExample(r: VerbRecord, sentence: string): (r': VerbRecord)
    ensures r'.userExamples.Some? && Examples(r') == Examples(r) + [sentence]
    ensures r' == r.(userExamples := r'.userExamples)
  {
    r.(userExamples := Some(Examples(r) + [sentence]))
  }

  /** The index of the first record whose base form is `key`, if any. */
  function FirstMatch(vs: seq<VerbRecord>, key: string): (m: Option<nat>)
    ensures m.Some? ==> m.value < |vs| && vs[m.value].v1 == key
    ensures m.Some? ==> forall j :: 0 <= j < m.value ==> vs[j].v1 != key
    ensures m.None? <==> forall j :: 0 <= j < |vs| ==> vs[j].v1 != key
  {
    if vs == [] then None
    else if vs[0].v1 == key then Some(0)
    else match FirstMatch(vs[1..], key)
      case None => None
      case Some(i) => Some(i + 1)
  }

  /** The collection after `save_user_example` has run its loop: the first
      record whose base form is `key` gains `sentence`, and nothing else changes. */
  function AddExample(vs: seq<VerbRecord>, key: string, sentence: string): (r: seq<VerbRecord>)
    ensures |r| == |vs|
    ensures forall j :: 0 <= j < |vs| && FirstMatch(vs, key) != Some(j) ==> r[j] == vs[j]
    ensures forall j :: 0 <= j < |vs| && FirstMatch(vs, key) == Some(j) ==>
      && Examples(r[j]) == Examples(vs[j]) + [sentence]
      && r[j] == vs[j].(userExamples := r[j].userExamples)
  {
    match FirstMatch(vs, key)
    case None => vs
    case Some(i) => vs[i := WithExample(vs[i], sentence)]
  }

  /** Only the first matching record changes: every other record, the
      length and the order of the collection stay as they were, including
      later records with the same base form. */
  lemma AddExampleChangesOnlyFirstMatch(vs: seq<VerbRecord>, key: string, sentence: string, i: nat)
    requires FirstMatch(vs, key) == Some(i)
    ensures |AddExample(vs, key, sentence)| == |vs|
    ensures AddExample(vs, key, sentence)[i].userExamples == Some(Examples(vs[i]) + [sentence])
    ensures AddExample(vs, key, sentence)[i] == vs[i].(userExamples := Some(Examples(vs[i]) + [sentence]))
    ensures forall j :: 0 <= j < |vs| && j != i ==> AddExample(vs, key, sentence)[j] == vs[j]
  {
  }

  /** With no record whose base form is `key`, the collection is left exactly as it was. */
  lemma AddExampleWithoutMatch(vs: seq<VerbRecord>, key: string, sentence: string)
    requires forall j :: 0 <= j < |vs| ==> vs[j].v1 != key
    ensures AddExample(vs, key, sentence) == vs
  {
  }

  /** Saving never touches a base form, so the same record is found again next time. */
  lemma AddExampleKeepsBaseForms(vs: seq<VerbRecord>, key: string, sentence: string, k: string)
    ensures |AddExample(vs, key, sentence)| == |vs|
    ensures forall j :: 0 <= j < |vs| ==> AddExample(vs, key, sentence)[j].v1 == vs[j].v1
    ensures FirstMatch(AddExample(vs, key, sentence), k) == FirstMatch(vs, k)
  {
    var ws := AddExample(vs, key, sentence);
    assert forall j :: 0 <= j < |vs| ==> ws[j].v1 == vs[j].v1;
    FirstMatchSameKeys(vs, ws, k);
  }

  /** The first match depends on the base forms alone. */
  lemma {:induction false} FirstMatchSameKeys(vs: seq<VerbRecord>, ws: seq<VerbRecord>, k: string)
    requires |vs| == |ws|
    requires forall j :: 0 <= j < |vs| ==> ws[j].v1 == vs[j].v1
    ensures FirstMatch(ws, k) == FirstMatch(vs, k)
  {
    if vs != [] && vs[0].v1 != k {
      FirstMatchSameKeys(vs[1..], ws[1..], k);
    }
  }

  /** Two saves on the same verb keep both sentences, in the order they were saved. */
  lemma SavesKeepOrder(vs: seq<VerbRecord>, key: string, a: string, b: string, i: nat)
    requires FirstMatch(vs, key) == Some(i)
    ensures Examples(AddExample(AddExample(vs, key, a), key, b)[i]) == Examples(vs[i]) + [a, b]
  {
    var ws := AddExample(vs, key, a);
    AddExampleKeepsBaseForms(vs, key, a, key);
    assert Examples(ws[i]) == Examples(vs[i]) + [a];
    assert Examples(AddExample(ws, key, b)[i]) == Examples(ws[i]) + [b];
  }

  /**
   * `save_user_example` without its file rewrite: scan the collection in
   * order, and at the first record whose `v1` equals the current verb's,
   * create `user_examples` if it is missing, append `sentence` and stop.
   */
  method SaveUserExample(verbs: array<VerbRecord>, current: VerbRecord, sentence: string)
    modifies verbs
    ensures verbs[..] == AddExample(old(verbs[..]), current.v1, sentence)
  {
    var i := 0;
    while i < verbs.Length
      invariant 0 <= i <= verbs.Length
      invariant verbs[..] == old(verbs[..])
      invariant forall j :: 0 <= j < i ==> verbs[j].v1 != current.v1
    {
      var v := verbs[i];
      if v.v1 == current.v1 {
        if v.userExamples.None? {
          v := v.(userExamples := Some([]));
        }
        v := v.(userExamples := Some(v.userExamples.value + [sentence]));
        verbs[i] := v;
        break;
      }
      i := i + 1;
    }
  }
}
