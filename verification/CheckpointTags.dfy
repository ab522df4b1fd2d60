/** The image tags of checkpoints: one registry holds the images of many, and a tag is all that tells them apart. */
module CheckpointTags {
  import opened Wrappers
  import opened CheckpointRun

  /** What of a checkpoint goes into its tags. */
  datatype Target = Target(registry: string, repository: string, namespace: string, pod: string)

  function Prefix(t: Target): string {
    t.registry + "/" + t.repository + "/checkpoint-" + t.namespace + "_" + t.pod + "-"
  }

  function Tag(t: Target, c: Container): string {
    ImageName(Prefix(t), c)
  }

  /** Names of namespaces contain no underscore. */
  predicate NoUnderscore(s: string) {
    forall i | 0 <= i < |s| :: s[i] != '_'
  }

  // ---- Which tags coincide --------------------------------------------------------------------------------

  lemma SplitAtUnderscore(a: string, b: string, c: string, d: string)
    requires NoUnderscore(a) && NoUnderscore(c) && a + "_" + b == c + "_" + d
    ensures a == c && b == d
  {
    var x, y := a + "_" + b, c + "_" + d;
    assert x[|a|] == '_' && y[|c|] == '_';
    assert forall i | 0 <= i < |a| :: x[i] == a[i];
    assert forall i | 0 <= i < |c| :: y[i] == c[i];
    assert |a| == |c|;
    assert a == x[..|a|] && c == y[..|c|] && b == x[|a| + 1..] && d == y[|c| + 1..];
  }

  lemma SameEnds(p: string, a: string, b: string, e: string)
    ensures p + a + e == p + b + e <==> a == b
  {
    assert a == (p + a + e)[|p|..|p + a + e| - |e|] && b == (p + b + e)[|p|..|p + b + e| - |e|];
  }

  /** Within one repository two containers share a tag exactly if they are in the same namespace and pod name, dash and
      container name read the same. */
  lemma TagsCoincideIff(t: Target, c: Container, u: Target, d: Container)
    requires t.registry == u.registry && t.repository == u.repository
    requires NoUnderscore(t.namespace) && NoUnderscore(u.namespace)
    ensures Tag(t, c) == Tag(u, d) <==>
            t.namespace == u.namespace && t.pod + "-" + c.name == u.pod + "-" + d.name
  {
    var p := t.registry + "/" + t.repository + "/checkpoint-";
    var x, y := t.namespace + "_" + (t.pod + "-" + c.name), u.namespace + "_" + (u.pod + "-" + d.name);
    assert Tag(t, c) == p + x + ":latest";
    assert Tag(u, d) == p + y + ":latest";
    SameEnds(p, x, y, ":latest");
    if x == y {
      SplitAtUnderscore(t.namespace, t.pod + "-" + c.name, u.namespace, u.pod + "-" + d.name);
    }
  }

  /** Container b-c of pod a and container c of pod a-b share a tag. */
  lemma DashesShareTags(t: Target, a: string, b: string, c: string, image: string)
    ensures Tag(t.(pod := a), Container(b + "-" + c, image)) == Tag(t.(pod := a + "-" + b), Container(c, image))
  {
    var p := t.registry + "/" + t.repository + "/checkpoint-" + t.namespace + "_";
    assert Tag(t.(pod := a), Container(b + "-" + c, image)) == p + (a + "-" + (b + "-" + c)) + ":latest";
    assert Tag(t.(pod := a + "-" + b), Container(c, image)) == p + (a + "-" + b + "-" + c) + ":latest";
    assert a + "-" + (b + "-" + c) == a + "-" + b + "-" + c;
  }

  // ---- Pairing beside other checkpoints -------------------------------------------------------------------

  lemma PushElsewhere(pushes: seq<Push>, p: Push, image: string)
    ensures BaseOf(pushes + [p], image) == if p.image == image then Some(p.base) else BaseOf(pushes, image)
  {
    assert (pushes + [p])[..|pushes|] == pushes;
  }

  /** A push of another checkpoint does no harm: another tag, or an image built on the same one. */
  predicate Harmless(s: Status, p: Push) {
    p.image == s.lastCheckpointImage ==> p.base == s.originalImage
  }

  /** The pushes of other checkpoints leave a status paired at every moment exactly if each of them goes to another tag
      or builds on the same image. */
  lemma {:induction false} PairedBesideOthersIff(s: Status, pushes: seq<Push>, others: seq<Push>)
    requires Paired(s, pushes) && s.lastCheckpointImage != ""
    ensures (forall n | 0 <= n <= |others| :: Paired(s, pushes + others[..n])) <==>
            forall i | 0 <= i < |others| :: Harmless(s, others[i])
  {
    if |others| == 0 {
      assert pushes + others[..0] == pushes;
    } else {
      var k := |others| - 1;
      var before := others[..k];
      PairedBesideOthersIff(s, pushes, before);
      assert forall n | 0 <= n <= k :: before[..n] == others[..n];
      assert others[..k + 1] == others && pushes + others == (pushes + before) + [others[k]];
      PushElsewhere(pushes + before, others[k], s.lastCheckpointImage);
      assert before[..k] == before;
    }
  }

  /** The pushes of the containers of another pod. */
  predicate PushesOf(u: Target, ds: seq<Container>, others: seq<Push>) {
    forall i | 0 <= i < |others| :: exists j :: 0 <= j < |ds| && others[i] == PushOf(Prefix(u), ds[j])
  }

  /** No container of one pod shares its tag with one of the other. */
  predicate TagsApart(t: Target, cs: seq<Container>, u: Target, ds: seq<Container>) {
    forall i, j | 0 <= i < |cs| && 0 <= j < |ds| :: Tag(t, cs[i]) != Tag(u, ds[j])
  }

  /** With tags kept apart, what the runs of one pod paired stays paired whatever the other pod's runs push. */
  lemma ApartStaysPaired(t: Target, cs: seq<Container>, u: Target, ds: seq<Container>, s: Status, pushes: seq<Push>,
                         others: seq<Push>, i: nat)
    requires TagsApart(t, cs, u, ds) && PushesOf(u, ds, others)
    requires Paired(s, pushes) && i < |cs| && s.lastCheckpointImage == Tag(t, cs[i])
    ensures forall n | 0 <= n <= |others| :: Paired(s, pushes + others[..n])
  {
    assert s.lastCheckpointImage != "" by { assert |Tag(t, cs[i])| >= |":latest"|; }
    forall k | 0 <= k < |others| ensures Harmless(s, others[k]) {
      var j :| 0 <= j < |ds| && others[k] == PushOf(Prefix(u), ds[j]);
      assert others[k].image == Tag(u, ds[j]);
    }
    PairedBesideOthersIff(s, pushes, others);
  }

  /** Two containers of different images under one tag: one push of the other pod breaks the pairing. */
  lemma SharedTagBreaksPairing(t: Target, c: Container, u: Target, d: Container, now: nat)
    requires Tag(t, c) == Tag(u, d) && c.image != d.image
    ensures var s := Status(Completed, Some(now), c.image, Tag(t, c));
            && Paired(s, [PushOf(Prefix(t), c)])
            && !Paired(s, [PushOf(Prefix(t), c)] + [PushOf(Prefix(u), d)])
  {
    PushElsewhere([], PushOf(Prefix(t), c), Tag(t, c));
    assert [] + [PushOf(Prefix(t), c)] == [PushOf(Prefix(t), c)];
    PushElsewhere([PushOf(Prefix(t), c)], PushOf(Prefix(u), d), Tag(t, c));
    assert |Tag(t, c)| >= |":latest"|;
  }
}
