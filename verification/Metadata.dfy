/** Instance metadata extracted from a Kubernetes object (internal/metadata/extract.go). */
module Metadata {

  /** A Go map: nil and empty have no entries but are different values. */
  datatype GoMap = NilMap | Allocated(entries: map<string, string>) {
    function Entries(): map<string, string> {
      if NilMap? then map[] else entries
    }
  }

  /** The fields of an unstructured object that the pipeline reads. */
  datatype Object = Object(
    namespace: string, apiVersion: string, kind: string, name: string,
    resourceVersion: string, createdAt: string, labels: GoMap, annotations: GoMap)

  datatype ResourceInstance = ResourceInstance(
    id: string, namespace: string, name: string, kind: string, apiVersion: string, apiGroup: string,
    labels: GoMap, annotations: GoMap, createdAt: string)

  const CLUSTER_SCOPE := "_cluster"

  // ----- Identifiers -----

  predicate SlashFree(s: string) {
    '/' !in s
  }

  function EffectiveNamespace(o: Object): string {
    if o.namespace == "" then CLUSTER_SCOPE else o.namespace
  }

  function BuildId(namespace: string, apiVersion: string, kind: string, name: string): string {
    namespace + "/" + apiVersion + "/" + kind + "/" + name
  }

  /** Position of the first slash, or |s| when there is none. */
  function FirstSlash(s: string): (i: nat)
    ensures i <= |s| && (forall j :: 0 <= j < i ==> s[j] != '/') && (i < |s| ==> s[i] == '/')
  {
    if s == "" || s[0] == '/' then 0 else 1 + FirstSlash(s[1..])
  }

  /** Position of the last slash, or -1 when there is none. */
  function LastSlash(s: string): (i: int)
    ensures -1 <= i < |s| && (forall j :: i < j < |s| ==> s[j] != '/') && (0 <= i ==> s[i] == '/')
  {
    if s == "" then -1
    else if s[|s| - 1] == '/' then |s| - 1
    else LastSlash(s[..|s| - 1])
  }

  datatype Parts = Malformed | Parts(namespace: string, apiVersion: string, kind: string, name: string)

  /** Reads an identifier back: split at the first slash and at the last two. */
  function ParseId(id: string): Parts {
    var first := FirstSlash(id);
    if first == |id| then Malformed else
      var rest := id[first + 1..];
      var last := LastSlash(rest);
      if last < 0 then Malformed else
        var middle := rest[..last];
        var second := LastSlash(middle);
        if second < 0 then Malformed
        else Parts(id[..first], middle[..second], middle[second + 1..], rest[last + 1..])
  }

  lemma {:induction false} FirstSlashAt(a: string, b: string)
    requires SlashFree(a)
    ensures FirstSlash(a + "/" + b) == |a|
  {
    var s := a + "/" + b;
    if a != "" {
      assert s[1..] == a[1..] + "/" + b;
      FirstSlashAt(a[1..], b);
    }
  }

  lemma {:induction false} LastSlashAt(a: string, b: string)
    requires SlashFree(b)
    ensures LastSlash(a + "/" + b) == |a|
  {
    var s := a + "/" + b;
    if b != "" {
      assert s[..|s| - 1] == a + "/" + b[..|b| - 1];
      LastSlashAt(a, b[..|b| - 1]);
    }
  }

  lemma CutAt(a: string, b: string)
    ensures var s := a + "/" + b; s[..|a|] == a && s[|a| + 1..] == b
  {
  }

  lemma Reassociate(namespace: string, apiVersion: string, kind: string, name: string)
    ensures BuildId(namespace, apiVersion, kind, name) == namespace + "/" + (apiVersion + "/" + kind + "/" + name)
  {
  }

  /** The four fields come back from the identifier, whatever the apiVersion holds. */
  lemma IdParsesBack(namespace: string, apiVersion: string, kind: string, name: string)
    requires SlashFree(namespace) && SlashFree(kind) && SlashFree(name)
    ensures ParseId(BuildId(namespace, apiVersion, kind, name)) == Parts(namespace, apiVersion, kind, name)
  {
    var middle := apiVersion + "/" + kind;
    var rest := middle + "/" + name;
    Reassociate(namespace, apiVersion, kind, name);
    FirstSlashAt(namespace, rest);
    CutAt(namespace, rest);
    LastSlashAt(middle, name);
    CutAt(middle, name);
    LastSlashAt(apiVersion, kind);
    CutAt(apiVersion, kind);
  }

  // ----- API group and annotations -----

  function ExtractApiGroup(apiVersion: string): (group: string)
    ensures '/' in apiVersion ==> SlashFree(group) && group + "/" <= apiVersion
    ensures SlashFree(apiVersion) ==> group == ""
  {
    var i := FirstSlash(apiVersion);
    if i < |apiVersion| then apiVersion[..i] else ""
  }

  const SKIP_ANNOTATION_PREFIXES: seq<string> := [
    "kubectl.kubernetes.io/",
    "meta.helm.sh/",
    "helm.sh/",
    "deployment.kubernetes.io/",
    "control-plane.alpha.kubernetes.io/",
    "kubernetes.io/"]

  predicate SkipsAnnotation(key: string) {
    exists i :: 0 <= i < |SKIP_ANNOTATION_PREFIXES| && SKIP_ANNOTATION_PREFIXES[i] <= key
  }

  /** Internal metadata of kubectl, helm and Kubernetes itself is skipped, whatever follows the prefix. */
  lemma SkippedExactlyWhen(key: string)
    ensures SkipsAnnotation(key) <==>
            || "kubectl.kubernetes.io/" <= key
            || "meta.helm.sh/" <= key
            || "helm.sh/" <= key
            || "deployment.kubernetes.io/" <= key
            || "control-plane.alpha.kubernetes.io/" <= key
            || "kubernetes.io/" <= key
  {
    var p := SKIP_ANNOTATION_PREFIXES;
    assert p[0] <= key || p[1] <= key || p[2] <= key || p[3] <= key || p[4] <= key || p[5] <= key ==>
        SkipsAnnotation(key);
  }

  method ShouldSkipAnnotation(key: string) returns (skip: bool)
    ensures skip <==> SkipsAnnotation(key)
  {
    for i := 0 to |SKIP_ANNOTATION_PREFIXES|
      invariant forall j :: 0 <= j < i ==> !(SKIP_ANNOTATION_PREFIXES[j] <= key)
    {
      if SKIP_ANNOTATION_PREFIXES[i] <= key {
        return true;
      }
    }
    return false;
  }

  /** What survives the filter; nothing left is nil, never an empty map. */
  ghost function KeptAnnotations(annotations: GoMap): GoMap {
    var kept := map k | k in annotations.Entries() && !SkipsAnnotation(k) :: annotations.Entries()[k];
    if kept == map[] then NilMap else Allocated(kept)
  }

  method FilterAnnotations(annotations: GoMap) returns (r: GoMap)
    ensures r == KeptAnnotations(annotations)
  {
    var entries := annotations.Entries();
    if |entries| == 0 {
      return NilMap;
    }
    var filtered: map<string, string> := map[];
    var todo := entries.Keys;
    while todo != {}
      invariant todo <= entries.Keys
      invariant filtered == map k | k in entries && k !in todo && !SkipsAnnotation(k) :: entries[k]
      decreases todo
    {
      var key :| key in todo;
      todo := todo - {key};
      var skip := ShouldSkipAnnotation(key);
      if skip {
        continue;
      }
      filtered := filtered[key := entries[key]];
    }
    assert filtered == map k | k in entries && !SkipsAnnotation(k) :: entries[k];
    if |filtered| == 0 {
      assert filtered == map[];
      return NilMap;
    }
    return Allocated(filtered);
  }

  // ----- Extract -----

  ghost function Extracted(o: Object): ResourceInstance {
    var ns := EffectiveNamespace(o);
    ResourceInstance(
      BuildId(ns, o.apiVersion, o.kind, o.name), ns, o.name, o.kind, o.apiVersion,
      ExtractApiGroup(o.apiVersion), o.labels, KeptAnnotations(o.annotations), o.createdAt)
  }

  method Extract(o: Object) returns (r: ResourceInstance)
    ensures r == Extracted(o)
  {
    var ns := o.namespace;
    if ns == "" {
      ns := CLUSTER_SCOPE;
    }
    var kept := FilterAnnotations(o.annotations);
    r := ResourceInstance(
      BuildId(ns, o.apiVersion, o.kind, o.name), ns, o.name, o.kind, o.apiVersion,
      ExtractApiGroup(o.apiVersion), o.labels, kept, o.createdAt);
  }

  predicate SlashFreeNames(o: Object) {
    SlashFree(o.namespace) && SlashFree(o.kind) && SlashFree(o.name)
  }

  predicate SameIdentity(a: Object, b: Object) {
    a.namespace == b.namespace && a.apiVersion == b.apiVersion && a.kind == b.kind && a.name == b.name
  }

  /** Two scopes the identifier cannot tell apart: no namespace, and a namespace that is called "_cluster". */
  predicate ScopeClash(a: Object, b: Object) {
    || (a.namespace == "" && b.namespace == CLUSTER_SCOPE)
    || (a.namespace == CLUSTER_SCOPE && b.namespace == "")
  }

  /** Extract's identifier separates exactly the objects that differ in identity, except for that clash of scopes. */
  lemma IdIsIdentity(a: Object, b: Object)
    requires SlashFreeNames(a) && SlashFreeNames(b)
    ensures Extracted(a).id == Extracted(b).id <==>
            SameIdentity(a, b) || (ScopeClash(a, b) && SameIdentity(a.(namespace := b.namespace), b))
  {
    IdParsesBack(EffectiveNamespace(a), a.apiVersion, a.kind, a.name);
    IdParsesBack(EffectiveNamespace(b), b.apiVersion, b.kind, b.name);
  }

  /**
   * An instance's identifier reads back as the instance's own fields, which are the object's; what is left of
   * the annotations is the object's too.
   */
  lemma InstanceMatchesId(o: Object)
    requires SlashFreeNames(o)
    ensures var r := Extracted(o);
            ParseId(r.id) == Parts(r.namespace, r.apiVersion, r.kind, r.name) &&
            ParseId(r.id) == Parts(EffectiveNamespace(o), o.apiVersion, o.kind, o.name)
    ensures var r := Extracted(o);
            r.labels == o.labels && r.createdAt == o.createdAt &&
            (forall k :: k in r.annotations.Entries() <==> k in o.annotations.Entries() && !SkipsAnnotation(k)) &&
            (forall k :: k in r.annotations.Entries() ==> r.annotations.Entries()[k] == o.annotations.Entries()[k]) &&
            (r.annotations.NilMap? <==> forall k :: k in o.annotations.Entries() ==> SkipsAnnotation(k))
    ensures var r := Extracted(o); r.id == r.namespace + "/" + r.apiVersion + "/" + r.kind + "/" + r.name
    ensures Extracted(o).namespace == if o.namespace == "" then "_cluster" else o.namespace
    ensures SlashFree(o.apiVersion) ==> Extracted(o).apiGroup == ""
    ensures '/' in o.apiVersion ==> Extracted(o).apiGroup + "/" <= o.apiVersion
  {
    IdParsesBack(EffectiveNamespace(o), o.apiVersion, o.kind, o.name);
    NilExactlyWhen(o.annotations);
  }

  lemma NilExactlyWhen(annotations: GoMap)
    ensures KeptAnnotations(annotations).NilMap? <==> forall k :: k in annotations.Entries() ==> SkipsAnnotation(k)
  {
    var kept := map k | k in annotations.Entries() && !SkipsAnnotation(k) :: annotations.Entries()[k];
    assert forall k :: k in annotations.Entries() && !SkipsAnnotation(k) ==> k in kept;
    if kept != map[] {
      var k :| k in kept;
    }
  }
}
