/**
 * `merge_analysis_dicts` and `_most_common` (generators/chunker.py): the
 * analyses of the chunks of a long source are merged into one analysis.
 * An analysis dict is a record whose keys may be missing (`None`); a
 * relationship's missing `from`/`to`/`type` key is the empty string.
 */
module AnalysisMerge {
  import opened Wrappers
  import opened Text
  import opened Seqs

  datatype Relationship = Relationship(source: string, target: string, kind: string, description: string)

  /** The key two relationships are duplicates under: `(from, to, type)`. */
  function RelKey(r: Relationship): (string, string, string) { (r.source, r.target, r.kind) }

  /** The keys of an analysis dict; `structure` holds the section titles. */
  datatype Analysis = Analysis(
    mainTopic: Option<string>,
    contentType: Option<string>,
    structure: Option<seq<string>>,
    keyConcepts: Option<seq<string>>,
    relationships: Option<seq<Relationship>>,
    difficultyLevel: Option<string>,
    recommendedFormat: Option<string>,
    summary: Option<string>)

  /** The empty dict `{}`. */
  const EMPTY: Analysis := Analysis(None, None, None, None, None, None, None, None)

  // ---------------------------------------------------------------------------
  // _most_common
  // ---------------------------------------------------------------------------

  /**
   * `r` is what `max(counts, key=counts.get)` picks: an item with the highest
   * count and, among those, the one seen first (dicts keep insertion order
   * and `max` keeps the first maximum).
   */
  predicate IsMostCommon(items: seq<string>, r: string) {
    r in items
    && (forall x :: x in items ==> Occurrences(items, x) <= Occurrences(items, r))
    && (forall x :: x in items && Occurrences(items, x) == Occurrences(items, r) ==> FirstIndex(items, r) <= FirstIndex(items, x))
  }

  /** At most one item is the most common one. */
  lemma MostCommonUnique(items: seq<string>, a: string, b: string)
    requires IsMostCommon(items, a) && IsMostCommon(items, b)
    ensures a == b
  {
    var i := FirstIndex(items, a);
    var j := FirstIndex(items, b);
    assert i == j;
  }

  /** `keys` (in insertion order) and `counts` are the dict built from `items`. */
  ghost predicate Counted(items: seq<string>, keys: seq<string>, counts: map<string, nat>) {
    keys == DedupFirst(items)
    && (forall x :: x in counts <==> x in items)
    && (forall x :: x in counts ==> counts[x] == Occurrences(items, x))
  }

  /** A new item is appended to the dict's keys; a repeated one is not. */
  lemma KeysStep(done: seq<string>, item: string)
    ensures DedupFirst(done + [item]) == if item in done then DedupFirst(done) else DedupFirst(done) + [item]
  {
    var keys := DedupFirst(done);
    DedupByAppend(done, item, Identity);
    DedupFirstSpec(done);
    KeysOfSpec(keys, Identity);
    if item in done {
      assert item in keys;
      var k :| 0 <= k < |keys| && keys[k] == item;
      assert Identity(keys[k]) in KeysOf(keys, Identity);
    }
  }

  /** `counts[item] = counts.get(item, 0) + 1` keeps the dict in step with the items seen. */
  lemma CountStep(done: seq<string>, item: string, keys: seq<string>, counts: map<string, nat>)
    requires Counted(done, keys, counts)
    ensures Counted(done + [item], if item in counts then keys else keys + [item],
                    counts[item := if item in counts then counts[item] + 1 else 1])
  {
    KeysStep(done, item);
    forall x ensures Occurrences(done + [item], x) == Occurrences(done, x) + (if item == x then 1 else 0) {
      OccurrencesAppend(done, item, x);
    }
  }

  /**
   * The counting loop of `_most_common`: the dict's keys in insertion order
   * (first occurrences) and the count of each item.
   */
  method CountItems(items: seq<string>) returns (keys: seq<string>, counts: map<string, nat>)
    ensures keys == DedupFirst(items)
    ensures forall x :: x in counts <==> x in items
    ensures forall x :: x in counts ==> counts[x] == Occurrences(items, x)
  {
    keys, counts := [], map[];
    var i := 0;
    while i < |items|
      invariant 0 <= i <= |items|
      invariant Counted(items[..i], keys, counts)
    {
      var item := items[i];
      assert items[..i + 1] == items[..i] + [item];
      CountStep(items[..i], item, keys, counts);
      if item in counts {
        counts := counts[item := counts[item] + 1];
      } else {
        keys := keys + [item];
        counts := counts[item := 1];
      }
      i := i + 1;
    }
    assert items[..i] == items;
  }

  /** `_most_common`: counts every item, then takes the first item with the highest count. */
  method MostCommon(items: seq<string>) returns (r: string)
    ensures items == [] ==> r == ""
    ensures items != [] ==> IsMostCommon(items, r)
  {
    if items == [] {
      return "";
    }
    var keys, counts := CountItems(items);
    DedupFirstSpec(items);
    assert items[0] in keys;
    var best := keys[0];
    var bestCount := counts[best];
    var bi := 0;
    var j := 1;
    while j < |keys|
      invariant 1 <= j <= |keys| && 0 <= bi < j
      invariant best == keys[bi] && bestCount == counts[best]
      invariant forall m :: 0 <= m < j ==> counts[keys[m]] <= bestCount
      invariant forall m :: 0 <= m < bi ==> counts[keys[m]] < bestCount
    {
      if counts[keys[j]] > bestCount {
        best, bestCount, bi := keys[j], counts[keys[j]], j;
      }
      j := j + 1;
    }
    r := best;
    MostCommonPick(items, keys, counts, bi);
  }

  /** The first key with the highest count is the most common item. */
  lemma MostCommonPick(items: seq<string>, keys: seq<string>, counts: map<string, nat>, bi: nat)
    requires items != [] && keys == DedupFirst(items) && bi < |keys|
    requires forall x :: x in counts <==> x in items
    requires forall x :: x in counts ==> counts[x] == Occurrences(items, x)
    requires forall m :: 0 <= m < |keys| ==> keys[m] in counts
    requires forall m :: 0 <= m < |keys| ==> counts[keys[m]] <= counts[keys[bi]]
    requires forall m :: 0 <= m < bi ==> counts[keys[m]] < counts[keys[bi]]
    ensures IsMostCommon(items, keys[bi])
  {
    DedupFirstSpec(items);
    var r := keys[bi];
    forall x | x in items && Occurrences(items, x) == Occurrences(items, r)
      ensures FirstIndex(items, r) <= FirstIndex(items, x)
    {
      var m :| 0 <= m < |keys| && keys[m] == x;
      if bi < m { DedupFirstOrder(items, bi, m); }
    }
    forall x | x in items ensures Occurrences(items, x) <= Occurrences(items, r) {
      var m :| 0 <= m < |keys| && keys[m] == x;
    }
  }

  // ---------------------------------------------------------------------------
  // merge_analysis_dicts
  // ---------------------------------------------------------------------------

  /** `[a.get('content_type', 'lecture') for a in analyses]`. */
  function ContentTypes(analyses: seq<Analysis>): (r: seq<string>)
    ensures |r| == |analyses| && forall i :: 0 <= i < |analyses| ==> r[i] == analyses[i].contentType.GetOr("lecture")
  {
    seq(|analyses|, i requires 0 <= i < |analyses| => analyses[i].contentType.GetOr("lecture"))
  }

  /** `[a.get('difficulty_level', 'intermediate') for a in analyses]`. */
  function DifficultyLevels(analyses: seq<Analysis>): (r: seq<string>)
    ensures |r| == |analyses| && forall i :: 0 <= i < |analyses| ==> r[i] == analyses[i].difficultyLevel.GetOr("intermediate")
  {
    seq(|analyses|, i requires 0 <= i < |analyses| => analyses[i].difficultyLevel.GetOr("intermediate"))
  }

  function Structures(analyses: seq<Analysis>): seq<seq<string>> {
    seq(|analyses|, i requires 0 <= i < |analyses| => analyses[i].structure.GetOr([]))
  }

  function Concepts(analyses: seq<Analysis>): seq<seq<string>> {
    seq(|analyses|, i requires 0 <= i < |analyses| => analyses[i].keyConcepts.GetOr([]))
  }

  function Relations(analyses: seq<Analysis>): seq<seq<Relationship>> {
    seq(|analyses|, i requires 0 <= i < |analyses| => analyses[i].relationships.GetOr([]))
  }

  /** `[a.get('summary', '') for a in analyses if a.get('summary')]`. */
  function Summaries(analyses: seq<Analysis>): (r: seq<string>)
    ensures forall i :: 0 <= i < |r| ==> r[i] != ""
    decreases |analyses|
  {
    if analyses == [] then []
    else
      var s := analyses[|analyses| - 1].summary.GetOr("");
      Summaries(analyses[..|analyses| - 1]) + (if s != "" then [s] else [])
  }

  /** The `extend` loop: every inner sequence appended in order. */
  method ConcatAll<T>(xss: seq<seq<T>>) returns (all: seq<T>)
    ensures all == Flatten(xss)
  {
    all := [];
    var i := 0;
    while i < |xss|
      invariant 0 <= i <= |xss| && all == Flatten(xss[..i])
    {
      assert xss[..i + 1] == xss[..i] + [xss[i]];
      FlattenAppend(xss[..i], xss[i]);
      all := all + xss[i];
      i := i + 1;
    }
    assert xss[..i] == xss;
  }

  /**
   * The `seen`-set loops: each item, inner sequence by inner sequence, is
   * appended when its key has not been seen, and its key is remembered.
   */
  method DedupAll<T, K(==)>(xss: seq<seq<T>>, key: T -> K) returns (kept: seq<T>)
    ensures kept == DedupBy(Flatten(xss), key)
  {
    kept := [];
    var seen: set<K> := {};
    var i := 0;
    while i < |xss|
      invariant 0 <= i <= |xss|
      invariant kept == DedupBy(Flatten(xss[..i]), key) && seen == KeysOf(kept, key)
    {
      assert xss[..i + 1] == xss[..i] + [xss[i]];
      FlattenAppend(xss[..i], xss[i]);
      kept, seen := AppendUnseen(kept, seen, xss[i], key, Flatten(xss[..i]));
      i := i + 1;
    }
    assert xss[..i] == xss;
  }

  /** The inner loop of `DedupAll`. */
  method AppendUnseen<T, K(==)>(kept: seq<T>, seen: set<K>, items: seq<T>, key: T -> K, ghost before: seq<T>)
    returns (kept': seq<T>, seen': set<K>)
    requires kept == DedupBy(before, key) && seen == KeysOf(kept, key)
    ensures kept' == DedupBy(before + items, key) && seen' == KeysOf(kept', key)
  {
    kept', seen' := kept, seen;
    var j := 0;
    assert before + items[..0] == before;
    while j < |items|
      invariant 0 <= j <= |items|
      invariant kept' == DedupBy(before + items[..j], key) && seen' == KeysOf(kept', key)
    {
      var x := items[j];
      assert before + items[..j + 1] == (before + items[..j]) + [x];
      UnseenStep(kept', seen', before + items[..j], x, key);
      if key(x) !in seen' {
        seen' := seen' + {key(x)};
        kept' := kept' + [x];
      }
      j := j + 1;
    }
    assert items[..j] == items;
  }

  /** One step of the `seen`-set loop keeps the kept items and the seen keys in step. */
  lemma UnseenStep<T, K>(kept: seq<T>, seen: set<K>, done: seq<T>, x: T, key: T -> K)
    requires kept == DedupBy(done, key) && seen == KeysOf(kept, key)
    ensures key(x) !in seen ==> kept + [x] == DedupBy(done + [x], key) && seen + {key(x)} == KeysOf(kept + [x], key)
    ensures key(x) in seen ==> kept == DedupBy(done + [x], key)
  {
    DedupByAppend(done, x, key);
    KeysOfAppend(kept, x, key);
  }

  /** `merge_analysis_dicts`. */
  method MergeAnalyses(analyses: seq<Analysis>) returns (merged: Analysis)
    ensures analyses == [] ==> merged == EMPTY
    ensures |analyses| == 1 ==> merged == analyses[0]
    ensures |analyses| >= 2 ==>
      && merged.mainTopic == Some(analyses[0].mainTopic.GetOr(""))
      && merged.contentType.Some? && IsMostCommon(ContentTypes(analyses), merged.contentType.value)
      && merged.structure == Some(Flatten(Structures(analyses)))
      && merged.keyConcepts == Some(DedupFirst(Flatten(Concepts(analyses))))
      && merged.relationships == Some(DedupBy(Flatten(Relations(analyses)), RelKey))
      && merged.difficultyLevel.Some? && IsMostCommon(DifficultyLevels(analyses), merged.difficultyLevel.value)
      && merged.recommendedFormat == Some(analyses[0].recommendedFormat.GetOr("detailed"))
      && merged.summary == Some(Join(Summaries(analyses), " "))
  {
    if analyses == [] {
      return EMPTY;
    }
    if |analyses| == 1 {
      return analyses[0];
    }
    var contentType := MostCommon(ContentTypes(analyses));
    var difficulty := MostCommon(DifficultyLevels(analyses));
    var structure := ConcatAll(Structures(analyses));
    var concepts := DedupAll(Concepts(analyses), Identity);
    var relationships := DedupAll(Relations(analyses), RelKey);
    merged := Analysis(
      Some(analyses[0].mainTopic.GetOr("")),
      Some(contentType),
      Some(structure),
      Some(concepts),
      Some(relationships),
      Some(difficulty),
      Some(analyses[0].recommendedFormat.GetOr("detailed")),
      Some(Join(Summaries(analyses), " ")));
  }

  // ---------------------------------------------------------------------------
  // What the merge keeps
  // ---------------------------------------------------------------------------

  /** Index `j` of the `i`-th inner sequence, as a position in the flattening. */
  lemma {:induction false} FlattenHas<T>(xss: seq<seq<T>>, i: nat, j: nat)
    requires i < |xss| && j < |xss[i]|
    ensures xss[i][j] in Flatten(xss)
    decreases |xss|
  {
    var init := xss[..|xss| - 1];
    if i < |init| {
      FlattenHas(init, i, j);
    }
  }

  /** Every element of the flattening comes from one of the inner sequences. */
  lemma {:induction false} FlattenFrom<T>(xss: seq<seq<T>>, x: T)
    requires x in Flatten(xss)
    ensures exists i :: 0 <= i < |xss| && x in xss[i]
    decreases |xss|
  {
    var init := xss[..|xss| - 1];
    if x !in xss[|xss| - 1] {
      FlattenFrom(init, x);
      var i :| 0 <= i < |init| && x in init[i];
      assert xss[i] == init[i];
    }
  }

  /**
   * The merged key concepts are duplicate-free, and a concept is among them
   * exactly when some chunk's analysis lists it.
   */
  lemma MergedConcepts(analyses: seq<Analysis>, c: string)
    ensures Distinct(DedupFirst(Flatten(Concepts(analyses))))
    ensures c in DedupFirst(Flatten(Concepts(analyses)))
      <==> exists i :: 0 <= i < |analyses| && c in analyses[i].keyConcepts.GetOr([])
  {
    var all := Flatten(Concepts(analyses));
    DedupFirstSpec(all);
    if exists i :: 0 <= i < |analyses| && c in analyses[i].keyConcepts.GetOr([]) {
      var i :| 0 <= i < |analyses| && c in analyses[i].keyConcepts.GetOr([]);
      var j :| 0 <= j < |Concepts(analyses)[i]| && Concepts(analyses)[i][j] == c;
      FlattenHas(Concepts(analyses), i, j);
    }
    if c in DedupFirst(all) {
      var k :| 0 <= k < |DedupFirst(all)| && DedupFirst(all)[k] == c;
      FlattenFrom(Concepts(analyses), c);
    }
  }

  /**
   * No two merged relationships share `(from, to, type)`, every merged one
   * comes from some chunk, and every key some chunk has is represented.
   */
  lemma MergedRelationships(analyses: seq<Analysis>)
    ensures var rs := DedupBy(Flatten(Relations(analyses)), RelKey);
      (forall i, j :: 0 <= i < j < |rs| ==> RelKey(rs[i]) != RelKey(rs[j]))
      && (forall r :: r in rs ==> r in Flatten(Relations(analyses)))
      && KeysOf(rs, RelKey) == KeysOf(Flatten(Relations(analyses)), RelKey)
  {
    var all := Flatten(Relations(analyses));
    DedupByDistinctKeys(all, RelKey);
    DedupByMembers(all, RelKey);
    DedupByKeys(all, RelKey);
  }

  /** The merged structure keeps every section of every chunk, in order. */
  lemma MergedStructureLength(analyses: seq<Analysis>)
    ensures |Flatten(Structures(analyses))| == TotalLength(Structures(analyses))
  {
    FlattenLength(Structures(analyses));
  }
}
