/**
 Nested array wildcards: what a path with several `[]` selects when `json_tree` lists every
 node of a document under its full key, and when that is what the documentation says.
 */
module JqlNested {
  import opened Prelude
  import opened Strings
  import opened SqlText
  import opened SqlEval
  import opened JqlFilter
  import opened JqlPlan
  import opened JqlMeaning
  import opened JqlTheorems
  import JqlCorrect
  import K = JqlFullkey

  // ------------------------------------------------------------------ documents

  /** The steps lead from the document to the node. */
  ghost predicate Reaches(doc: Json, steps: seq<K.Step>, node: Json)
    decreases steps
  {
    if steps == [] then node == doc
    else match steps[0]
      case Label(l) =>
        doc.JObj? && exists j :: 0 <= j < |doc.fields| && doc.fields[j].key == l
                                 && Reaches(doc.fields[j].value, steps[1..], node)
      case Index(i) => doc.JArr? && i < |doc.items| && Reaches(doc.items[i], steps[1..], node)
  }

  /** The row of a node: lists and objects have no atom, and `whole` is the node as a value. */
  function RowFor(spell: K.Spelling, whole: Json -> SqlValue, steps: seq<K.Step>, node: Json): TreeNode
  {
    TreeNode(Text(K.Fullkey(spell, steps)), ScalarOf(node), whole(node))
  }

  /** `json_tree(v)` lists exactly the nodes of the document, each under its full key. */
  ghost predicate ListsNodes(E: Engine, spell: K.Spelling, whole: Json -> SqlValue, v: SqlValue, doc: Json)
  {
    && (forall i | 0 <= i < |E.tree(v)| ::
          exists steps, node :: Reaches(doc, steps, node) && E.tree(v)[i] == RowFor(spell, whole, steps, node))
    && (forall steps, node | Reaches(doc, steps, node) :: RowFor(spell, whole, steps, node) in E.tree(v))
  }

  ghost predicate LikesText(E: Engine)
  {
    forall s: string, p: string :: E.like(Text(s), Text(p)) == K.Like(p, s)
  }

  // ------------------------------------------------------------------- meanings

  /** A node meets what the filter asks of the path's value. */
  ghost predicate Meets(E: Engine, whole: Json -> SqlValue, value: Json, node: Json)
  {
    TestsMean(E, value, ScalarOf(node), whole(node)) == True
  }

  /** The documented meaning: some element of some element … of the named fields meets the test. */
  ghost predicate SomeElement(E: Engine, whole: Json -> SqlValue, marks: seq<K.Mark>, value: Json, node: Json)
    decreases marks
  {
    if marks == [] then Meets(E, whole, value, node)
    else match marks[0]
      case Name(w) =>
        node.JObj? && exists j :: 0 <= j < |node.fields| && node.fields[j].key == w
                                  && SomeElement(E, whole, marks[1..], value, node.fields[j].value)
      case Element =>
        node.JArr? && exists i :: 0 <= i < |node.items| && SomeElement(E, whole, marks[1..], value, node.items[i])
  }

  /** What is selected: a node whose steps the path accepts meets the test. */
  ghost predicate SomeAccepted(E: Engine, spell: K.Spelling, whole: Json -> SqlValue,
                               marks: seq<K.Mark>, value: Json, doc: Json)
  {
    exists steps, node :: Reaches(doc, steps, node) && K.Accepts(marks, spell, steps) && Meets(E, whole, value, node)
  }

  /** The label occurs in the document. */
  ghost predicate HasLabel(doc: Json, l: string)
    decreases doc
  {
    match doc
    case JObj(fields) => exists j :: 0 <= j < |fields| && (fields[j].key == l || HasLabel(fields[j].value, l))
    case JArr(items) => exists i :: 0 <= i < |items| && HasLabel(items[i], l)
    case _ => false
  }

  /** No label is spelled with a separator. */
  ghost predicate SolidDocument(spell: K.Spelling, doc: Json)
  {
    forall l | HasLabel(doc, l) :: K.Solid(spell(l))
  }

  lemma {:induction false} ReachedLabels(doc: Json, steps: seq<K.Step>, node: Json, k: nat)
    requires Reaches(doc, steps, node) && k < |steps| && steps[k].Label?
    ensures HasLabel(doc, steps[k].name)
    decreases steps
  {
    match steps[0]
    case Label(l) =>
      var j :| 0 <= j < |doc.fields| && doc.fields[j].key == l && Reaches(doc.fields[j].value, steps[1..], node);
      if k > 0 {
        ReachedLabels(doc.fields[j].value, steps[1..], node, k - 1);
      }
    case Index(i) =>
      ReachedLabels(doc.items[i], steps[1..], node, k - 1);
  }

  lemma ReachedAreSolid(spell: K.Spelling, doc: Json, steps: seq<K.Step>, node: Json)
    requires SolidDocument(spell, doc) && Reaches(doc, steps, node)
    ensures K.SolidLabels(spell, steps)
  {
    forall k | 0 <= k < |steps| && steps[k].Label? ensures K.Solid(spell(steps[k].name)) {
      ReachedLabels(doc, steps, node, k);
    }
  }

  // ------------------------------------------------------- what is selected

  lemma NodeMeansBoth(E: Engine, pattern: string, key: string, value: Json, node: TreeNode)
    requires LikesText(E) && node.fullkey == Text(key)
    ensures NodeMeans(E, pattern, value, node) == True
       <==> K.Like(pattern, key) && TestsMean(E, value, node.atom, node.value) == True
  {
    assert Matches(E, false, Text(key), pattern) == FromBool(E.like(Text(key), Text(pattern)));
  }

  /** The row of a node is selected exactly when its steps are accepted and it meets the test. */
  lemma RowMeans(E: Engine, spell: K.Spelling, whole: Json -> SqlValue, path: string, value: Json,
                 steps: seq<K.Step>, node: Json)
    requires LikesText(E) && K.PlainPath(path) && K.SolidLabels(spell, steps)
    ensures NodeMeans(E, FullkeyPattern(path).value, value, RowFor(spell, whole, steps, node)) == True
       <==> K.Accepts(K.PathMarks(path), spell, steps) && Meets(E, whole, value, node)
  {
    var row, pattern := RowFor(spell, whole, steps, node), FullkeyPattern(path).value;
    K.PlainPathAccepts(path, spell, steps);
    NodeMeansBoth(E, pattern, K.Fullkey(spell, steps), value, row);
  }

  lemma RowSelects(E: Engine, path: string, value: Json, v: SqlValue, row: TreeNode)
    requires FullkeyPattern(path).Ok? && row in E.tree(v)
    requires NodeMeans(E, FullkeyPattern(path).value, value, row) == True
    ensures TreeMeans(E, path, value, v) == True
  {
    var i :| 0 <= i < |E.tree(v)| && E.tree(v)[i] == row;
  }

  lemma RowWithKey(E: Engine, spell: K.Spelling, whole: Json -> SqlValue, path: string, value: Json,
                   v: SqlValue, doc: Json, steps: seq<K.Step>, node: Json)
    requires LikesText(E) && ListsNodes(E, spell, whole, v, doc) && FullkeyPattern(path).Ok?
    requires Reaches(doc, steps, node) && Meets(E, whole, value, node)
    requires K.Like(FullkeyPattern(path).value, K.Fullkey(spell, steps))
    ensures TreeMeans(E, path, value, v) == True
  {
    var row := RowFor(spell, whole, steps, node);
    NodeMeansBoth(E, FullkeyPattern(path).value, K.Fullkey(spell, steps), value, row);
    RowSelects(E, path, value, v, row);
  }

  lemma SelectedIsAccepted(E: Engine, spell: K.Spelling, whole: Json -> SqlValue, path: string, value: Json,
                           v: SqlValue, doc: Json)
    requires LikesText(E) && ListsNodes(E, spell, whole, v, doc) && SolidDocument(spell, doc) && K.PlainPath(path)
    requires TreeMeans(E, path, value, v) == True
    ensures SomeAccepted(E, spell, whole, K.PathMarks(path), value, doc)
  {
    var i :| 0 <= i < |E.tree(v)| && NodeMeans(E, FullkeyPattern(path).value, value, E.tree(v)[i]) == True;
    var steps, node :| Reaches(doc, steps, node) && E.tree(v)[i] == RowFor(spell, whole, steps, node);
    ReachedAreSolid(spell, doc, steps, node);
    RowMeans(E, spell, whole, path, value, steps, node);
  }

  lemma AcceptedIsSelected(E: Engine, spell: K.Spelling, whole: Json -> SqlValue, path: string, value: Json,
                           v: SqlValue, doc: Json)
    requires LikesText(E) && ListsNodes(E, spell, whole, v, doc) && SolidDocument(spell, doc) && K.PlainPath(path)
    requires SomeAccepted(E, spell, whole, K.PathMarks(path), value, doc)
    ensures TreeMeans(E, path, value, v) == True
  {
    var steps, node :|
      Reaches(doc, steps, node) && K.Accepts(K.PathMarks(path), spell, steps) && Meets(E, whole, value, node);
    ReachedAreSolid(spell, doc, steps, node);
    RowMeans(E, spell, whole, path, value, steps, node);
    RowSelects(E, path, value, v, RowFor(spell, whole, steps, node));
  }

  // ------------------------------------------------- what the documentation says

  /** Full keys spell the names of the path as the path does. */
  ghost predicate SpelledAsIs(spell: K.Spelling, marks: seq<K.Mark>)
  {
    forall i | 0 <= i < |marks| && marks[i].Name? :: spell(marks[i].word) == marks[i].word
  }

  /** No label but the name itself resembles a name of the path. */
  ghost predicate OwnNames(spell: K.Spelling, marks: seq<K.Mark>, doc: Json)
  {
    forall l, i | HasLabel(doc, l) && 0 <= i < |marks| && marks[i].Name? && K.Resembles(marks[i].word, spell(l)) ::
      marks[i].word == l
  }

  /** No node lies within more than `depth` arrays. */
  ghost predicate NestsAtMost(doc: Json, depth: nat)
    decreases doc
  {
    match doc
    case JObj(fields) => forall j | 0 <= j < |fields| :: NestsAtMost(fields[j].value, depth)
    case JArr(items) => forall i | 0 <= i < |items| :: depth > 0 && NestsAtMost(items[i], depth - 1)
    case _ => true
  }

  lemma {:induction false} FewIndices(doc: Json, steps: seq<K.Step>, node: Json, depth: nat)
    requires Reaches(doc, steps, node) && NestsAtMost(doc, depth)
    ensures K.Indices(steps) <= depth
    decreases steps
  {
    if steps != [] {
      match steps[0]
      case Label(l) =>
        var j :| 0 <= j < |doc.fields| && doc.fields[j].key == l && Reaches(doc.fields[j].value, steps[1..], node);
        FewIndices(doc.fields[j].value, steps[1..], node, depth);
      case Index(i) =>
        FewIndices(doc.items[i], steps[1..], node, depth - 1);
    }
  }

  predicate FollowsStep(mark: K.Mark, step: K.Step)
  {
    match mark
    case Name(w) => step == K.Label(w)
    case Element => step.Index?
  }

  /** The path's own steps. */
  predicate Follows(marks: seq<K.Mark>, steps: seq<K.Step>)
  {
    |marks| == |steps| && forall i | 0 <= i < |marks| :: FollowsStep(marks[i], steps[i])
  }

  lemma FollowsRest(marks: seq<K.Mark>, steps: seq<K.Step>)
    requires marks != [] && steps != []
    ensures Follows(marks, steps) <==> FollowsStep(marks[0], steps[0]) && Follows(marks[1..], steps[1..])
  {
    if Follows(marks, steps) {
      forall i | 0 <= i < |marks[1..]| ensures FollowsStep(marks[1..][i], steps[1..][i]) {
        assert FollowsStep(marks[i + 1], steps[i + 1]);
      }
    }
    if FollowsStep(marks[0], steps[0]) && Follows(marks[1..], steps[1..]) {
      forall i | 0 <= i < |marks| ensures FollowsStep(marks[i], steps[i]) {
        assert i > 0 ==> FollowsStep(marks[1..][i - 1], steps[1..][i - 1]);
      }
    }
  }

  lemma {:induction false} SomeElementReached(E: Engine, whole: Json -> SqlValue, marks: seq<K.Mark>, value: Json,
                                              doc: Json)
    returns (steps: seq<K.Step>, node: Json)
    requires SomeElement(E, whole, marks, value, doc)
    ensures Reaches(doc, steps, node) && Follows(marks, steps) && Meets(E, whole, value, node)
    decreases marks
  {
    if marks == [] {
      steps, node := [], doc;
    } else {
      var rest: seq<K.Step>, step: K.Step;
      if marks[0].Name? {
        var j :| 0 <= j < |doc.fields| && doc.fields[j].key == marks[0].word
                 && SomeElement(E, whole, marks[1..], value, doc.fields[j].value);
        rest, node := SomeElementReached(E, whole, marks[1..], value, doc.fields[j].value);
        step := K.Label(marks[0].word);
      } else {
        var i: nat :| i < |doc.items| && SomeElement(E, whole, marks[1..], value, doc.items[i]);
        rest, node := SomeElementReached(E, whole, marks[1..], value, doc.items[i]);
        step := K.Index(i);
      }
      steps := [step] + rest;
      assert steps[1..] == rest;
      FollowsRest(marks, steps);
    }
  }

  lemma {:induction false} ReachedIsSomeElement(E: Engine, whole: Json -> SqlValue, marks: seq<K.Mark>, value: Json,
                                                doc: Json, steps: seq<K.Step>, node: Json)
    requires Reaches(doc, steps, node) && Follows(marks, steps) && Meets(E, whole, value, node)
    ensures SomeElement(E, whole, marks, value, doc)
    decreases marks
  {
    if marks != [] {
      FollowsRest(marks, steps);
      match marks[0]
      case Name(w) =>
        var j :| 0 <= j < |doc.fields| && doc.fields[j].key == w && Reaches(doc.fields[j].value, steps[1..], node);
        ReachedIsSomeElement(E, whole, marks[1..], value, doc.fields[j].value, steps[1..], node);
      case Element =>
        ReachedIsSomeElement(E, whole, marks[1..], value, doc.items[steps[0].index], steps[1..], node);
    }
  }

  lemma FollowedIsTaken(spell: K.Spelling, marks: seq<K.Mark>, steps: seq<K.Step>)
    requires Follows(marks, steps) && SpelledAsIs(spell, marks)
    ensures K.Takes(marks, spell, steps)
  {
    forall i | 0 <= i < |marks| ensures K.TakesStep(marks[i], spell, steps[i]) {
      assert FollowsStep(marks[i], steps[i]);
    }
  }

  lemma TakenIsFollowed(spell: K.Spelling, marks: seq<K.Mark>, doc: Json, steps: seq<K.Step>, node: Json)
    requires K.Takes(marks, spell, steps) && Reaches(doc, steps, node) && OwnNames(spell, marks, doc)
    ensures Follows(marks, steps)
  {
    forall i | 0 <= i < |marks| ensures FollowsStep(marks[i], steps[i]) {
      assert K.TakesStep(marks[i], spell, steps[i]);
      if marks[i].Name? {
        ReachedLabels(doc, steps, node, i);
      }
    }
  }

  /** A document with the documented elements is selected, whatever else it holds. */
  lemma SomeElementIsSelected(E: Engine, spell: K.Spelling, whole: Json -> SqlValue, path: string, value: Json,
                              v: SqlValue, doc: Json)
    requires LikesText(E) && ListsNodes(E, spell, whole, v, doc) && FullkeyPattern(path).Ok?
    requires SpelledAsIs(spell, K.PathMarks(path)) && SomeElement(E, whole, K.PathMarks(path), value, doc)
    ensures TreeMeans(E, path, value, v) == True
  {
    var steps, node := SomeElementReached(E, whole, K.PathMarks(path), value, doc);
    FollowedIsTaken(spell, K.PathMarks(path), steps);
    K.FullkeyMatches(path, spell, steps);
    RowWithKey(E, spell, whole, path, value, v, doc, steps, node);
  }

  /** Where no further array lies on the way and names are unmistakable, nothing else is selected. */
  lemma AcceptedIsSomeElement(E: Engine, spell: K.Spelling, whole: Json -> SqlValue, marks: seq<K.Mark>, value: Json,
                              doc: Json)
    requires SomeAccepted(E, spell, whole, marks, value, doc)
    requires NestsAtMost(doc, K.Elements(marks)) && OwnNames(spell, marks, doc)
    ensures SomeElement(E, whole, marks, value, doc)
  {
    var steps, node :| Reaches(doc, steps, node) && K.Accepts(marks, spell, steps) && Meets(E, whole, value, node);
    FewIndices(doc, steps, node, K.Elements(marks));
    K.AcceptedUsesIndices(marks, spell, steps);
    TakenIsFollowed(spell, marks, doc, steps, node);
    ReachedIsSomeElement(E, whole, marks, value, doc, steps, node);
  }

  /**
   What a nested wildcard selects. A document in which some element of some element … meets
   the test is always selected. A path without `_` selects exactly the documents with a node
   that meets the test and whose steps the path accepts; and where the document nests no
   further array and no label resembles a name without being it, exactly the documented ones.
   */
  lemma NestedWildcards(E: Engine, spell: K.Spelling, whole: Json -> SqlValue, path: string, value: Json,
                        v: SqlValue, doc: Json)
    requires LikesText(E) && ListsNodes(E, spell, whole, v, doc)
    requires FullkeyPattern(path).Ok? && SpelledAsIs(spell, K.PathMarks(path))
    ensures var marks := K.PathMarks(path);
            var selected := TreeMeans(E, path, value, v) == True;
            var documented := SomeElement(E, whole, marks, value, doc);
            && (documented ==> selected)
            && (K.PlainPath(path) && SolidDocument(spell, doc) ==>
                  && (selected <==> SomeAccepted(E, spell, whole, marks, value, doc))
                  && (NestsAtMost(doc, K.Elements(marks)) && OwnNames(spell, marks, doc) ==>
                        (selected <==> documented)))
  {
    var marks := K.PathMarks(path);
    if SomeElement(E, whole, marks, value, doc) {
      SomeElementIsSelected(E, spell, whole, path, value, v, doc);
    }
    if K.PlainPath(path) && SolidDocument(spell, doc) {
      if TreeMeans(E, path, value, v) == True {
        SelectedIsAccepted(E, spell, whole, path, value, v, doc);
      }
      if SomeAccepted(E, spell, whole, marks, value, doc) {
        AcceptedIsSelected(E, spell, whole, path, value, v, doc);
        if NestsAtMost(doc, K.Elements(marks)) && OwnNames(spell, marks, doc) {
          AcceptedIsSomeElement(E, spell, whole, marks, value, doc);
        }
      }
    }
  }

  /** The same of the emitted text: it is true of exactly the documents that the path selects. */
  lemma NestedText(E: Engine, spell: K.Spelling, whole: Json -> SqlValue, base: string, path: string, value: Json,
                   v: SqlValue, doc: Json)
    requires LikesText(E) && ListsNodes(E, spell, whole, v, doc) && CountBracketPairs(path) > 1
    requires WhereOf(base, JObj([Field(path, value)])).Ok?
    requires FilterPasses(OR_STANDS_ALONE, JObj([Field(path, value)]), false)
    requires FilterPasses(WHERE_IS_NOT_EMPTY, JObj([Field(path, value)]), false)
    requires SpelledAsIs(spell, K.PathMarks(path)) && K.PlainPath(path) && SolidDocument(spell, doc)
    requires NestsAtMost(doc, K.Elements(K.PathMarks(path))) && OwnNames(spell, K.PathMarks(path), doc)
    ensures var where := WhereOf(base, JObj([Field(path, value)])).value;
            var text := Bind(where.sql, where.binds);
            && text.Some? && Parse(text.value).Some?
            && ((EvalDisj(E, OnDocument(v), Parse(text.value).value) == True)
                <==> SomeElement(E, whole, K.PathMarks(path), value, doc))
  {
    TextMeansFilter(E, base, JObj([Field(path, value)]), v);
    NestedFilterMeans(E, path, value, v);
    NestedWildcards(E, spell, whole, path, value, v, doc);
  }

  lemma NestedFilterMeans(E: Engine, path: string, value: Json, v: SqlValue)
    requires CountBracketPairs(path) > 1
    ensures FilterMeans(E, JObj([Field(path, value)]), v, false) == TreeMeans(E, path, value, v)
  {
    var fields := [Field(path, value)];
    assert fields[1..] == [] && EntriesMean(E, [], v, false) == True;
    PlainKeys();
    assert EntryMeans(E, path, value, v, false) == FieldMeans(E, path, value, v);
  }

  lemma PlainKeys()
    ensures forall key | IsLogical(key) || key == "$not" :: CountBracketPairs(key) == 0
  {
    var names := ["$and", "$or", "$nor", "$not"];
    forall i | 0 <= i < 4 ensures CountBracketPairs(names[i]) == 0 {
      JqlCorrect.NoBracketPairs(names[i]);
    }
  }

  /**
   A path misses its own nodes where full keys spell one of its names otherwise, as SQLite
   does with a label that holds a `_`, which it puts in quotes.
   */
  lemma OtherSpellingIsMissed(path: string, spell: K.Spelling, steps: seq<K.Step>, i: nat)
    requires FullkeyPattern(path).Ok? && K.WordMarks(K.PathMarks(path)) && K.SolidLabels(spell, steps)
    requires Follows(K.PathMarks(path), steps) && i < |steps| && K.PathMarks(path)[i].Name?
    requires !K.Resembles(K.PathMarks(path)[i].word, spell(K.PathMarks(path)[i].word))
    ensures !K.Like(FullkeyPattern(path).value, K.Fullkey(spell, steps))
  {
    var marks := K.PathMarks(path);
    FollowedCounts(marks, steps);
    K.PatternAcceptsExactly(path, spell, steps);
    assert FollowsStep(marks[i], steps[i]) && !K.TakesStep(marks[i], spell, steps[i]);
  }

  lemma {:induction false} FollowedCounts(marks: seq<K.Mark>, steps: seq<K.Step>)
    requires Follows(marks, steps)
    ensures K.Elements(marks) == K.Indices(steps) && K.Names(marks) == K.Labels(steps)
  {
    if marks != [] {
      FollowsRest(marks, steps);
      FollowedCounts(marks[1..], steps[1..]);
    }
  }

  // ------------------------------------------------------------ a counterexample

  /** The document `{f: [{h: [{g: [x]}]}]}`, from the inside out. */
  function Inner(g: string, x: Json): Json
  {
    JObj([Field(g, JArr([x]))])
  }

  lemma IntoField(l: string, items: seq<Json>, i: nat, steps: seq<K.Step>, node: Json)
    requires i < |items| && Reaches(items[i], steps, node)
    ensures Reaches(JObj([Field(l, JArr(items))]), [K.Label(l), K.Index(i)] + steps, node)
  {
    var doc := JObj([Field(l, JArr(items))]);
    var all := [K.Label(l), K.Index(i)] + steps;
    assert all[1..][0] == K.Index(i) && all[1..][1..] == steps;
    assert Reaches(JArr(items), all[1..], node);
    assert doc.fields[0].key == l && Reaches(doc.fields[0].value, all[1..], node);
  }

  lemma InnerReached(f: string, g: string, h: string, x: Json)
    ensures var steps := [K.Label(f)] + ([K.Index(0)] + [K.Label(h)] + [K.Index(0)] + [K.Label(g), K.Index(0)]);
            Reaches(Inner(f, Inner(h, Inner(g, x))), steps, x)
  {
    var last := [K.Label(g), K.Index(0)];
    IntoField(g, [x], 0, [], x);
    assert last + [] == last;
    IntoField(h, [Inner(g, x)], 0, last, x);
    IntoField(f, [Inner(h, Inner(g, x))], 0, [K.Label(h), K.Index(0)] + last, x);
    assert [K.Label(f), K.Index(0)] + ([K.Label(h), K.Index(0)] + last)
        == [K.Label(f)] + ([K.Index(0)] + [K.Label(h)] + [K.Index(0)] + last);
  }

  lemma IntoInner(E: Engine, whole: Json -> SqlValue, marks: seq<K.Mark>, value: Json, l: string, x: Json)
    requires |marks| >= 2 && marks[0].Name? && marks[1].Element?
    ensures SomeElement(E, whole, marks, value, Inner(l, x))
       <==> marks[0].word == l && SomeElement(E, whole, marks[2..], value, x)
  {
    assert marks[1..][0].Element? && marks[1..][1..] == marks[2..];
    assert SomeElement(E, whole, marks[1..], value, JArr([x])) <==> SomeElement(E, whole, marks[2..], value, x) by {
      assert [x][0] == x;
    }
    assert [Field(l, JArr([x]))][0] == Field(l, JArr([x]));
  }

  /** `f[].g[]` selects `{f: [{h: [{g: [x]}]}]}`, in which no element of `f` has a `g`. */
  lemma DeeperArrayIsSelected(E: Engine, spell: K.Spelling, whole: Json -> SqlValue, f: string, g: string, h: string,
                              x: Json, value: Json, v: SqlValue)
    requires f != "" && g != "" && IsWord(f) && IsWord(g) && spell(f) == f && spell(g) == g && g != h
    requires LikesText(E) && Meets(E, whole, value, x)
    requires ListsNodes(E, spell, whole, v, Inner(f, Inner(h, Inner(g, x))))
    ensures FullkeyPattern(K.TwoArrays(f, g)).Ok? && TreeMeans(E, K.TwoArrays(f, g), value, v) == True
    ensures !SomeElement(E, whole, K.PathMarks(K.TwoArrays(f, g)), value, Inner(f, Inner(h, Inner(g, x))))
  {
    var path := K.TwoArrays(f, g);
    K.TwoArrayMarks(f, g);
    IntoInner(E, whole, K.PathMarks(path), value, f, Inner(h, Inner(g, x)));
    IntoInner(E, whole, K.PathMarks(path)[2..], value, h, Inner(g, x));
    K.PatternAcceptsDeeperKey(f, g, spell, 0, [K.Label(h)], 0, 0);
    var steps := [K.Label(f)] + ([K.Index(0)] + [K.Label(h)] + [K.Index(0)] + [K.Label(g), K.Index(0)]);
    InnerReached(f, g, h, x);
    RowWithKey(E, spell, whole, path, value, v, Inner(f, Inner(h, Inner(g, x))), steps, x);
  }
}
