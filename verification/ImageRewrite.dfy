/** The in-place image rewrite of a workload manifest: UpdateResourceContainers and updateContainers, on parsed YAML. */
module ImageRewrite {
  import opened Wrappers

  datatype Yaml =
    | Str(text: string)
    | Scalar(text: string)               // a number, a boolean, a timestamp
    | Null
    | List(items: seq<Yaml>)
    | Map(fields: map<string, Yaml>)

  type Fields = map<string, Yaml>

  const CONTAINER_FIELDS: seq<string> := ["containers", "initContainers"]

  /** The string under a key, or "" if there is none. */
  function StringAt(fields: Fields, key: string): string {
    if key in fields && fields[key].Str? then fields[key].text else ""
  }

  function MapAt(fields: Fields, key: string): Option<Fields> {
    if key in fields && fields[key].Map? then Some(fields[key].fields) else None
  }

  predicate IsList(fields: Fields, key: string) {
    key in fields && fields[key].List?
  }

  // ---- Specification of updateContainers ------------------------------------------------------------------

  predicate HasImage(c: Yaml, image: string) {
    c.Map? && image != "" && StringAt(c.fields, "image") == image
  }

  function SetImage(c: Yaml, checkpoint: string, original: string): Yaml {
    if HasImage(c, original) then Map(c.fields["image" := Str(checkpoint)]) else c
  }

  function SetImages(items: seq<Yaml>, checkpoint: string, original: string): (r: seq<Yaml>)
    ensures |r| == |items| && forall i | 0 <= i < |items| :: r[i] == SetImage(items[i], checkpoint, original)
  {
    seq(|items|, i requires 0 <= i < |items| => SetImage(items[i], checkpoint, original))
  }

  function RewriteField(pod: Fields, field: string, checkpoint: string, original: string): Fields {
    if IsList(pod, field) then pod[field := List(SetImages(pod[field].items, checkpoint, original))] else pod
  }

  function Rewrite(pod: Fields, checkpoint: string, original: string): Fields {
    RewriteField(RewriteField(pod, CONTAINER_FIELDS[0], checkpoint, original), CONTAINER_FIELDS[1], checkpoint,
                 original)
  }

  predicate FieldUses(pod: Fields, field: string, image: string) {
    IsList(pod, field) && exists i :: 0 <= i < |pod[field].items| && HasImage(pod[field].items[i], image)
  }

  /** Some container or init container runs this (non-empty) image. */
  predicate Uses(pod: Fields, image: string) {
    FieldUses(pod, CONTAINER_FIELDS[0], image) || FieldUses(pod, CONTAINER_FIELDS[1], image)
  }

  // ---- The code -------------------------------------------------------------------------------------------

  /** spec.template.spec of a decoded manifest. */
  class PodSpec {
    var fields: Fields

    constructor (fields: Fields)
      ensures this.fields == fields
    {
      this.fields := fields;
    }

    method UpdateContainers(imageCheckpoint: string, originalImage: string) returns (changed: bool)
      modifies this
      ensures fields == Rewrite(old(fields), imageCheckpoint, originalImage)
      ensures changed <==> Uses(old(fields), originalImage)
    {
      changed := false;
      var f := 0;
      while f < |CONTAINER_FIELDS|
        invariant 0 <= f <= 2
        invariant f == 0 ==> fields == old(fields)
        invariant f == 1 ==> fields == RewriteField(old(fields), CONTAINER_FIELDS[0], imageCheckpoint, originalImage)
        invariant f == 2 ==> fields == Rewrite(old(fields), imageCheckpoint, originalImage)
        invariant changed <==> (exists g :: 0 <= g < f && FieldUses(old(fields), CONTAINER_FIELDS[g], originalImage))
      {
        var field := CONTAINER_FIELDS[f];
        assert IsList(fields, field) == IsList(old(fields), field)
            && (IsList(fields, field) ==> fields[field] == old(fields)[field]);
        if IsList(fields, field) {
          var hit := UpdateArray(field, imageCheckpoint, originalImage);
          changed := changed || hit;
        }
        f := f + 1;
      }
    }

    /** The inner loop, over the containers of one list. */
    method UpdateArray(field: string, imageCheckpoint: string, originalImage: string) returns (changed: bool)
      requires IsList(fields, field)
      modifies this
      ensures fields == RewriteField(old(fields), field, imageCheckpoint, originalImage)
      ensures changed <==> FieldUses(old(fields), field, originalImage)
    {
      changed := false;
      var j := 0;
      ghost var before := fields[field].items;
      while j < |fields[field].items|
        invariant IsList(fields, field) && |fields[field].items| == |before| && 0 <= j <= |before|
        invariant fields == old(fields)[field := fields[field]]
        invariant forall i | 0 <= i < j :: fields[field].items[i] == SetImage(before[i], imageCheckpoint, originalImage)
        invariant forall i | j <= i < |before| :: fields[field].items[i] == before[i]
        invariant changed <==> exists i :: 0 <= i < j && HasImage(before[i], originalImage)
      {
        var c := fields[field].items[j];
        if c.Map? {
          var image := StringAt(c.fields, "image");
          if image != "" && image == originalImage {
            var arr := fields[field].items[j := Map(c.fields["image" := Str(imageCheckpoint)])];
            fields := fields[field := List(arr)];
            changed := true;
          }
        }
        j := j + 1;
      }
      assert fields[field].items == SetImages(before, imageCheckpoint, originalImage);
    }
  }

  // ---- Laws of the rewrite --------------------------------------------------------------------------------

  /** The container runs this image; nothing runs the empty one. */
  predicate Runs(c: Yaml, image: string) {
    c.Map? && "image" in c.fields && c.fields["image"] == Str(image) && image != ""
  }

  /** Frame: only image strings equal to the original change, and only inside the lists "containers" and
      "initContainers". */
  lemma RewriteFrame(pod: Fields, checkpoint: string, original: string)
    ensures var r := Rewrite(pod, checkpoint, original);
            && r.Keys == pod.Keys
            && (forall k | k in pod && (k !in ["containers", "initContainers"] || !pod[k].List?) :: r[k] == pod[k])
            && forall k | k in ["containers", "initContainers"] && k in pod && pod[k].List? ::
                 && r[k].List? && |r[k].items| == |pod[k].items|
                 && forall i | 0 <= i < |pod[k].items| ::
                      var before, after := pod[k].items[i], r[k].items[i];
                      if Runs(before, original) then after == Map(before.fields["image" := Str(checkpoint)])
                      else after == before
  {
  }

  /** A pod uses an image exactly if some container of one of these two lists runs it. */
  lemma UsesMeaning(pod: Fields, image: string)
    ensures Uses(pod, image) <==>
            exists k, i :: k in ["containers", "initContainers"] && k in pod && pod[k].List?
                           && 0 <= i < |pod[k].items| && Runs(pod[k].items[i], image)
  {
    if FieldUses(pod, "containers", image) {
      var i :| 0 <= i < |pod["containers"].items| && HasImage(pod["containers"].items[i], image);
      assert Runs(pod["containers"].items[i], image) && "containers" in ["containers", "initContainers"];
    }
    if FieldUses(pod, "initContainers", image) {
      var i :| 0 <= i < |pod["initContainers"].items| && HasImage(pod["initContainers"].items[i], image);
      assert Runs(pod["initContainers"].items[i], image) && "initContainers" in ["containers", "initContainers"];
    }
  }

  lemma SetImageTwice(c: Yaml, checkpoint: string, original: string)
    ensures var d := SetImage(c, checkpoint, original);
            && SetImage(d, checkpoint, original) == d
            && (HasImage(d, original) <==> HasImage(c, original) && checkpoint == original)
  {
  }

  /** Rewriting twice is rewriting once. */
  lemma Idempotent(pod: Fields, checkpoint: string, original: string)
    ensures var r := Rewrite(pod, checkpoint, original); Rewrite(r, checkpoint, original) == r
  {
    var r := Rewrite(pod, checkpoint, original);
    forall k | k in CONTAINER_FIELDS && IsList(pod, k)
      ensures SetImages(r[k].items, checkpoint, original) == r[k].items
    {
      forall i | 0 <= i < |pod[k].items| {
        SetImageTwice(pod[k].items[i], checkpoint, original);
      }
    }
    assert forall k | k in CONTAINER_FIELDS && IsList(pod, k) :: IsList(r, k) && r[k := List(r[k].items)] == r;
  }

  /** Rewriting back restores this container. */
  predicate Restorable(c: Yaml, checkpoint: string, original: string) {
    checkpoint == original || (!HasImage(c, checkpoint) && (HasImage(c, original) ==> checkpoint != ""))
  }

  lemma SetImageBack(c: Yaml, checkpoint: string, original: string)
    ensures SetImage(SetImage(c, checkpoint, original), original, checkpoint) == c <==>
            Restorable(c, checkpoint, original)
  {
  }

  predicate ListRestorable(pod: Fields, field: string, checkpoint: string, original: string) {
    IsList(pod, field) ==>
      forall i | 0 <= i < |pod[field].items| :: Restorable(pod[field].items[i], checkpoint, original)
  }

  lemma SetImagesBack(items: seq<Yaml>, checkpoint: string, original: string)
    ensures SetImages(SetImages(items, checkpoint, original), original, checkpoint) == items <==>
            forall i | 0 <= i < |items| :: Restorable(items[i], checkpoint, original)
  {
    forall i | 0 <= i < |items|
      ensures SetImages(SetImages(items, checkpoint, original), original, checkpoint)[i] == items[i]
              <==> Restorable(items[i], checkpoint, original)
    {
      SetImageBack(items[i], checkpoint, original);
    }
  }

  lemma RewriteBack(pod: Fields, checkpoint: string, original: string)
    ensures Rewrite(Rewrite(pod, checkpoint, original), original, checkpoint) == pod <==>
            forall k | k in CONTAINER_FIELDS :: ListRestorable(pod, k, checkpoint, original)
  {
    var back := Rewrite(Rewrite(pod, checkpoint, original), original, checkpoint);
    forall k | k in CONTAINER_FIELDS && IsList(pod, k)
      ensures back[k] == pod[k] <==> ListRestorable(pod, k, checkpoint, original)
    {
      SetImagesBack(pod[k].items, checkpoint, original);
    }
    assert forall k | k in pod && !(k in CONTAINER_FIELDS && IsList(pod, k)) :: back[k] == pod[k];
    assert CONTAINER_FIELDS[0] in CONTAINER_FIELDS && CONTAINER_FIELDS[1] in CONTAINER_FIELDS;
  }

  /** Rewriting back restores the pod exactly when nothing already ran the checkpoint image and, if the original was
      in use at all, the checkpoint image is not empty. */
  lemma RoundTrip(pod: Fields, checkpoint: string, original: string)
    ensures Rewrite(Rewrite(pod, checkpoint, original), original, checkpoint) == pod <==>
            || checkpoint == original
            || (!Uses(pod, checkpoint) && (Uses(pod, original) ==> checkpoint != ""))
  {
    RewriteBack(pod, checkpoint, original);
    assert CONTAINER_FIELDS[0] in CONTAINER_FIELDS && CONTAINER_FIELDS[1] in CONTAINER_FIELDS;
  }

  lemma FieldRewriteChanges(pod: Fields, field: string, checkpoint: string, original: string)
    requires field in CONTAINER_FIELDS && FieldUses(pod, field, original) && checkpoint != original
    ensures Rewrite(pod, checkpoint, original) != pod
  {
    var i :| 0 <= i < |pod[field].items| && HasImage(pod[field].items[i], original);
    RewriteFrame(pod, checkpoint, original);
    assert StringAt(Rewrite(pod, checkpoint, original)[field].items[i].fields, "image") == checkpoint;
  }

  /** A rewrite to another image of a pod that runs the original changes it. */
  lemma RewriteChanges(pod: Fields, checkpoint: string, original: string)
    requires Uses(pod, original) && checkpoint != original
    ensures Rewrite(pod, checkpoint, original) != pod
  {
    var f := if FieldUses(pod, CONTAINER_FIELDS[0], original) then 0 else 1;
    FieldRewriteChanges(pod, CONTAINER_FIELDS[f], checkpoint, original);
  }

  // ---- Manifest files -------------------------------------------------------------------------------------

  /** A file: not parseable as YAML, or its documents in order. */
  datatype Content = Malformed | Docs(docs: seq<Yaml>)

  datatype Error =
    | ReadFile | Unmarshal | UnsupportedKind | MissingSpec | MissingTemplate | MissingPodSpec | Marshal | WriteFile

  /** Writing truncates the file first; a write that breaks off leaves something else behind. */
  datatype Write = Complete | Refused | Partial(left: Content)

  /** What reading, marshalling and writing return. */
  datatype Io = Io(readable: bool, marshals: bool, write: Write)

  /** What an update does to a file; Skipped is the early return when no image matched. */
  datatype Update = Failed(error: Error) | Skipped | Written(content: Content)

  predicate IsSupportedKind(kind: string) {
    kind == "Deployment" || kind == "ReplicaSet" || kind == "DaemonSet" || kind == "StatefulSet"
  }

  /** The first document as a mapping; an empty file or a null document decodes to an empty mapping. */
  function Root(c: Content): Option<Fields> {
    match c
    case Malformed => None
    case Docs(docs) =>
      if |docs| == 0 || docs[0].Null? then Some(map[])
      else if docs[0].Map? then Some(docs[0].fields)
      else None
  }

  datatype Located = Error(error: Error) | Pod(root: Fields, spec: Fields, template: Fields, pod: Fields)

  /** The checks of UpdateResourceContainers up to spec.template.spec, in their order. */
  function Locate(c: Content): Located {
    match Root(c)
    case None => Error(Unmarshal)
    case Some(root) =>
      if !IsSupportedKind(StringAt(root, "kind")) then Error(UnsupportedKind)
      else
        match MapAt(root, "spec")
        case None => Error(MissingSpec)
        case Some(spec) =>
          match MapAt(spec, "template")
          case None => Error(MissingTemplate)
          case Some(template) =>
            match MapAt(template, "spec")
            case None => Error(MissingPodSpec)
            case Some(pod) => Pod(root, spec, template, pod)
  }

  /** The tree with another pod spec in place, written out as the only document of the file. */
  function WithPod(l: Located, pod: Fields): Content
    requires l.Pod?
  {
    Docs([Map(l.root["spec" := Map(l.spec["template" := Map(l.template["spec" := Map(pod)])])])])
  }

  function UpdateOf(c: Content, checkpoint: string, original: string): Update {
    var l := Locate(c);
    if l.Error? then Failed(l.error)
    else if !Uses(l.pod, original) then Skipped
    else Written(WithPod(l, Rewrite(l.pod, checkpoint, original)))
  }

  /** The file after an update. */
  function Updated(c: Content, checkpoint: string, original: string): Content {
    var u := UpdateOf(c, checkpoint, original);
    if u.Written? then u.content else c
  }

  /** The error an update ends with. */
  function ErrorOf(u: Update, io: Io): Option<Error> {
    match u
    case Failed(error) => Some(error)
    case Skipped => None
    case Written(_) => if !io.marshals then Some(Marshal) else if !io.write.Complete? then Some(WriteFile) else None
  }

  /** The file an update of c leaves. */
  function Leaves(c: Content, u: Update, io: Io): Content {
    if !u.Written? || !io.marshals || io.write.Refused? then c
    else if io.write.Complete? then u.content
    else io.write.left
  }

  class Checkout {
    var files: map<string, Content>

    constructor (files: map<string, Content>)
      ensures this.files == files
    {
      this.files := files;
    }

    method UpdateResourceContainers(path: string, imageCheckpoint: string, originalImage: string, io: Io)
      returns (err: Option<Error>)
      modifies this
      ensures !(io.readable && path in old(files)) ==> err == Some(ReadFile) && files == old(files)
      ensures io.readable && path in old(files) ==>
                var u := UpdateOf(old(files)[path], imageCheckpoint, originalImage);
                && err == ErrorOf(u, io)
                && files == old(files)[path := Leaves(old(files)[path], u, io)]
    {
      if !io.readable || path !in files { return Some(ReadFile); }
      assert files == files[path := files[path]];
      var data := files[path];
      var root := Root(data);
      if root.None? { return Some(Unmarshal); }
      var doc := root.value;
      if !IsSupportedKind(StringAt(doc, "kind")) { return Some(UnsupportedKind); }
      var spec := MapAt(doc, "spec");
      if spec.None? { return Some(MissingSpec); }
      var tpl := MapAt(spec.value, "template");
      if tpl.None? { return Some(MissingTemplate); }
      var resourceSpec := MapAt(tpl.value, "spec");
      if resourceSpec.None? { return Some(MissingPodSpec); }
      var pod := new PodSpec(resourceSpec.value);
      var changed := pod.UpdateContainers(imageCheckpoint, originalImage);
      if !changed { return None; }
      if !io.marshals { return Some(Marshal); }
      var tpl' := tpl.value["spec" := Map(pod.fields)];
      var doc' := doc["spec" := Map(spec.value["template" := Map(tpl')])];
      match io.write
      case Complete =>
        files := files[path := Docs([Map(doc')])];
        return None;
      case Refused => return Some(WriteFile);
      case Partial(left) =>
        files := files[path := left];
        return Some(WriteFile);
    }
  }

  /** The mapping a file is decoded to: its first document, which may also be missing or null. */
  predicate DecodesTo(c: Content, root: Fields) {
    c.Docs? && if |c.docs| == 0 || c.docs[0] == Null then root == map[] else c.docs[0] == Map(root)
  }

  predicate IsMap(fields: Fields, key: string) {
    key in fields && fields[key].Map?
  }

  predicate IsWorkload(root: Fields) {
    "kind" in root && root["kind"] in {Str("Deployment"), Str("ReplicaSet"), Str("DaemonSet"), Str("StatefulSet")}
  }

  /** Which error an update of a decodable file ends with, in terms of its document: its kind is not one of the four
      workloads, or the first of spec, spec.template and spec.template.spec that is no mapping. */
  lemma LocateMeaning(c: Content, root: Fields)
    requires DecodesTo(c, root)
    ensures var l := Locate(c);
            if !IsWorkload(root) then l == Error(UnsupportedKind)
            else if !IsMap(root, "spec") then l == Error(MissingSpec)
            else
              var spec := root["spec"].fields;
              if !IsMap(spec, "template") then l == Error(MissingTemplate)
              else
                var template := spec["template"].fields;
                if !IsMap(template, "spec") then l == Error(MissingPodSpec)
                else l == Pod(root, spec, template, template["spec"].fields)
  {
  }

  lemma UndecodableIsUnmarshal(c: Content)
    ensures Locate(c) == Error(Unmarshal) <==> forall root :: !DecodesTo(c, root)
  {
    if c.Docs? && (|c.docs| == 0 || c.docs[0] == Null) {
      assert DecodesTo(c, map[]);
    } else if c.Docs? && c.docs[0].Map? {
      assert DecodesTo(c, c.docs[0].fields);
    }
  }

  /** Without an error the file is the intended update; with one it is untouched unless a write broke off. */
  lemma ErrorsLeaveTheFile(c: Content, checkpoint: string, original: string, io: Io)
    ensures var u := UpdateOf(c, checkpoint, original);
            && (ErrorOf(u, io).None? ==> Leaves(c, u, io) == Updated(c, checkpoint, original))
            && (ErrorOf(u, io).Some? && Leaves(c, u, io) != c ==> io.write.Partial?)
  {
  }

  /** What is written back is found again at the same place, with everything around it unchanged. */
  lemma LocateWithPod(c: Content, pod: Fields)
    requires Locate(c).Pod?
    ensures var l, m := Locate(c), Locate(WithPod(Locate(c), pod));
            && m.Pod? && m.pod == pod
            && m.root["spec" := Null] == l.root["spec" := Null]
            && m.spec["template" := Null] == l.spec["template" := Null]
            && m.template["spec" := Null] == l.template["spec" := Null]
            && WithPod(m, pod) == WithPod(l, pod)
  {
    var l, m := Locate(c), Locate(WithPod(Locate(c), pod));
    assert StringAt(l.root["spec" := Map(l.spec["template" := Map(l.template["spec" := Map(pod)])])], "kind")
        == StringAt(l.root, "kind");
    assert m.pod == pod;
    assert m.template["spec" := Map(pod)] == m.template;
    assert m.spec["template" := Map(m.template)] == m.spec;
    assert m.root["spec" := Map(m.spec)] == m.root;
  }

  /** A second update of the same file changes nothing and fails exactly if the first did. */
  lemma UpdatedTwice(c: Content, checkpoint: string, original: string)
    ensures var d := Updated(c, checkpoint, original);
            && Updated(d, checkpoint, original) == d
            && (UpdateOf(d, checkpoint, original).Failed? <==> UpdateOf(c, checkpoint, original).Failed?)
  {
    var l := Locate(c);
    if l.Pod? && Uses(l.pod, original) {
      LocateWithPod(c, Rewrite(l.pod, checkpoint, original));
      Idempotent(l.pod, checkpoint, original);
    }
  }

  /** Only the first document is ever decoded, and an update writes that one alone: the other documents survive
      exactly when there are none or no image of the first one matched. */
  lemma OtherDocumentsSurvive(docs: seq<Yaml>, checkpoint: string, original: string)
    requires |docs| > 0
    ensures var d := Updated(Docs(docs), checkpoint, original);
            && d.Docs? && |d.docs| > 0
            && (d.docs[1..] == docs[1..] <==>
                |docs| == 1 || Locate(Docs(docs)).Error? || !Uses(Locate(Docs(docs)).pod, original))
  {
  }
}
