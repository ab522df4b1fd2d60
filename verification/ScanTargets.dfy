/** What a scan looks for, in terms of file names and of the fields of documents. */
module ScanTargets {
  import opened ManifestScan
  import opened ScanFaults

  // ---- File names -----------------------------------------------------------------------------------------

  /** The path ends in .yml, in upper or lower case. */
  predicate EndsInYml(path: string) {
    var n := |path|;
    n >= 4 && path[n - 4] == '.' && path[n - 3] in "yY" && path[n - 2] in "mM" && path[n - 1] in "lL"
  }

  /** The path ends in .yaml, in upper or lower case. */
  predicate EndsInYaml(path: string) {
    var n := |path|;
    && n >= 5 && path[n - 5] == '.' && path[n - 4] in "yY" && path[n - 3] in "aA" && path[n - 2] in "mM"
    && path[n - 1] in "lL"
  }

  lemma LowerCases(c: char)
    ensures Lower(c) == 'y' <==> c in "yY"
    ensures Lower(c) == 'a' <==> c in "aA"
    ensures Lower(c) == 'm' <==> c in "mM"
    ensures Lower(c) == 'l' <==> c in "lL"
  {
  }

  /** The path ends in something that is lower-cased to c, and the rest of it has the extension e. */
  predicate Extends(path: string, e: string, c: char) {
    |path| > 0 && Lower(path[|path| - 1]) == c && Extension(path[..|path| - 1]) == e
  }

  lemma JustDot(path: string)
    ensures Extension(path) == "." <==> |path| > 0 && path[|path| - 1] == '.'
  {
  }

  lemma {:induction false} ExtensionFits(path: string)
    ensures |Extension(path)| <= |path|
  {
    if |path| > 0 {
      ExtensionFits(path[..|path| - 1]);
    }
  }

  lemma OneMore(path: string, e: string, c: char)
    requires |e| > 0 && 'a' <= c <= 'z'
    ensures Extension(path) == e + [c] <==> Extends(path, e, c)
  {
    if |path| > 0 && Extension(path) == e + [c] {
      var before, last := Extension(path[..|path| - 1]), Lower(path[|path| - 1]);
      assert |Extension(path)| > 1;
      assert Extension(path) == before + [last];
      assert before == Extension(path)[..|e|] == (e + [c])[..|e|] == e;
      assert last == Extension(path)[|e|] == c;
    }
  }

  lemma YmNames(path: string, n: nat)
    requires n <= |path|
    ensures Extension(path[..n]) == ".y" <==> n >= 2 && path[n - 2] == '.' && path[n - 1] in "yY"
  {
    OneMore(path[..n], ".", 'y');
    if n > 0 {
      LowerCases(path[n - 1]);
      assert path[..n][..n - 1] == path[..n - 1];
      JustDot(path[..n - 1]);
    }
    assert "." + "y" == ".y";
  }

  /** Another letter after a known extension. */
  lemma Further(path: string, n: nat, e: string, c: char, longer: string)
    requires 0 < n <= |path| && |e| > 0 && 'a' <= c <= 'z' && longer == e + [c]
    ensures Extension(path[..n]) == longer <==> Lower(path[n - 1]) == c && Extension(path[..n - 1]) == e
  {
    OneMore(path[..n], e, c);
    assert path[..n][..n - 1] == path[..n - 1];
  }

  lemma YmlNames(path: string)
    ensures Extension(path) == ".yml" <==> EndsInYml(path)
  {
    var n := |path|;
    assert path[..n] == path;
    if n >= 2 {
      Further(path, n, ".ym", 'l', ".yml");
      Further(path, n - 1, ".y", 'm', ".ym");
      LowerCases(path[n - 1]);
      LowerCases(path[n - 2]);
      YmNames(path, n - 2);
    }
    ExtensionFits(path);
  }

  lemma YamlNames(path: string)
    ensures Extension(path) == ".yaml" <==> EndsInYaml(path)
  {
    var n := |path|;
    assert path[..n] == path;
    if n >= 3 {
      Further(path, n, ".yam", 'l', ".yaml");
      Further(path, n - 1, ".ya", 'm', ".yam");
      Further(path, n - 2, ".y", 'a', ".ya");
      LowerCases(path[n - 1]);
      LowerCases(path[n - 2]);
      LowerCases(path[n - 3]);
      YmNames(path, n - 3);
    }
    ExtensionFits(path);
  }

  /** The files a scan reads are those whose names end in .yaml or .yml, in upper or lower case. */
  lemma ManifestNames(path: string)
    ensures IsManifest(path) <==> EndsInYaml(path) || EndsInYml(path)
  {
    YamlNames(path);
    YmlNames(path);
  }

  // ---- Documents ------------------------------------------------------------------------------------------

  /** The document is the referenced object; an absent namespace and "default" are the same one. */
  predicate Asked(d: Doc, ref: Ref) {
    && d.kind == ref.kind && d.name == ref.name
    && (d.namespace == ref.namespace || (d.namespace in ["", "default"] && ref.namespace in ["", "default"]))
  }

  lemma MatchesIffAsked(d: Doc, ref: Ref)
    ensures Matches(d, ref) <==> Asked(d, ref)
  {
  }

  /** The places of the referenced documents of file i, from its document k on. */
  function AskedDocs(docs: seq<Doc>, ref: Ref, i: nat, k: nat): set<(nat, nat)> {
    set j: nat | k <= j < |docs| && Asked(docs[j], ref) :: (i, j)
  }

  /** The places of the referenced documents in the manifests at a path, from entry n on. */
  function AskedPlaces(tree: seq<Entry>, ref: Ref, p: string, n: nat): set<(nat, nat)> {
    set i: nat, j: nat |
      && n <= i < |tree| && tree[i].Regular? && tree[i].file.path == p && (EndsInYaml(p) || EndsInYml(p))
      && j < |tree[i].file.docs| && Asked(tree[i].file.docs[j], ref) ::
      (i, j)
  }

  lemma {:induction false} DocsCounted(p: string, docs: seq<Doc>, ref: Ref, i: nat, k: nat)
    requires k <= |docs|
    ensures Hits(Only(p), p, docs[k..], ref) == |AskedDocs(docs, ref, i, k)|
    decreases |docs| - k
  {
    if k < |docs| {
      DocsCounted(p, docs, ref, i, k + 1);
      assert docs[k..][1..] == docs[k + 1..];
      MatchesIffAsked(docs[k], ref);
      var rest := AskedDocs(docs, ref, i, k + 1);
      assert AskedDocs(docs, ref, i, k) == if Asked(docs[k], ref) then rest + {(i, k)} else rest;
    } else {
      assert AskedDocs(docs, ref, i, k) == {};
    }
  }

  lemma {:induction false} OtherPath(sel: Selection, p: string, docs: seq<Doc>, ref: Ref)
    requires sel != Any && sel != Only(p)
    ensures Hits(sel, p, docs, ref) == 0
  {
    if |docs| > 0 {
      OtherPath(sel, p, docs[1..], ref);
    }
  }

  /** Entry n holds referenced documents of the path only if it is a manifest there. */
  lemma PlacesHere(tree: seq<Entry>, ref: Ref, p: string, n: nat)
    requires n < |tree|
    ensures var rest := AskedPlaces(tree, ref, p, n + 1);
            AskedPlaces(tree, ref, p, n) ==
            if IsSend(tree[n]) && tree[n].file.path == p then AskedDocs(tree[n].file.docs, ref, n, 0) + rest else rest
  {
    ManifestNames(p);
  }

  lemma EntryCounted(e: Entry, ref: Ref, p: string, n: nat)
    requires IsSend(e)
    ensures Hits(Only(p), e.file.path, e.file.docs, ref)
            == if e.file.path == p then |AskedDocs(e.file.docs, ref, n, 0)| else 0
  {
    if e.file.path == p {
      DocsCounted(p, e.file.docs, ref, n, 0);
      assert e.file.docs[0..] == e.file.docs;
    } else {
      OtherPath(Only(p), e.file.path, e.file.docs, ref);
    }
  }

  lemma {:induction false} TreeCounted(tree: seq<Entry>, ref: Ref, p: string, n: nat)
    requires n <= |tree|
    ensures WalkHits(Only(p), tree[n..], ref) == |AskedPlaces(tree, ref, p, n)|
    decreases |tree| - n
  {
    if n < |tree| {
      TreeCounted(tree, ref, p, n + 1);
      assert tree[n..][0] == tree[n] && tree[n..][1..] == tree[n + 1..];
      PlacesHere(tree, ref, p, n);
      if IsSend(tree[n]) {
        EntryCounted(tree[n], ref, p, n);
        assert AskedDocs(tree[n].file.docs, ref, n, 0) !! AskedPlaces(tree, ref, p, n + 1);
      }
    } else {
      assert AskedPlaces(tree, ref, p, n) == {};
    }
  }

  /** A tree's expected matches hold each path once for every referenced document in a manifest of that name. */
  lemma ExpectedMeaning(tree: seq<Entry>, ref: Ref, p: string)
    ensures multiset(Expected(tree, ref))[p] == |AskedPlaces(tree, ref, p, 0)|
  {
    CountMeaning(Expected(tree, ref), p);
    ExpectedCount(Only(p), tree, ref);
    TreeCounted(tree, ref, p, 0);
    assert tree[0..] == tree;
  }

  /** An uncancelled scan of a tree in which nothing can fail that returns through the closed matchCh has reported every
      path once for each document of the referenced kind, name and namespace in a .yaml or .yml file there. */
  lemma ReportsAsked(ref: Ref, tree: seq<Entry>, cpus: nat, acts: seq<Action>, p: string)
    requires cpus >= 1 && IsRun(Init(ref, tree, cpus), acts) && CleanTree(tree) && NoCancel(acts)
    requires After(Init(ref, tree, cpus), acts).collector == Exited(Drained)
    ensures multiset(After(Init(ref, tree, cpus), acts).collected)[p] == |AskedPlaces(tree, ref, p, 0)|
  {
    CleanTreeExit(ref, tree, cpus, acts);
    ExpectedMeaning(tree, ref, p);
  }
}
