/**
  The dotted identity strings of the program, each with a decoder: pipeline names, session ids,
  and the identity text that resource ids are made of. Fields may contain dots themselves, so
  none of these is obviously unambiguous.
 */
module Names {
  import opened Resources

  /** The text before and after the first `sep`; everything and nothing when there is none. */
  function CutFirst<T(==)>(s: seq<T>, sep: T): (seq<T>, Option<seq<T>>) {
    if s == [] then ([], None)
    else if s[0] == sep then ([], Some(s[1..]))
    else var (head, tail) := CutFirst(s[1..], sep); ([s[0]] + head, tail)
  }

  /** The text before and after the last `sep`. */
  function CutLast<T(==)>(s: seq<T>, sep: T): (Option<seq<T>>, seq<T>) {
    if s == [] then (None, [])
    else
      var n := |s| - 1;
      if s[n] == sep then (Some(s[..n]), [])
      else var (head, tail) := CutLast(s[..n], sep); (head, tail + [s[n]])
  }

  lemma {:induction false} CutFirstJoin<T>(a: seq<T>, sep: T, b: seq<T>)
    requires sep !in a
    ensures CutFirst(a + [sep] + b, sep) == (a, Some(b))
  {
    var s := a + [sep] + b;
    if a == [] {
      assert s[1..] == b;
    } else {
      assert s[1..] == a[1..] + [sep] + b;
      CutFirstJoin(a[1..], sep, b);
      assert [a[0]] + a[1..] == a;
    }
  }

  lemma {:induction false} CutLastJoin<T>(a: seq<T>, sep: T, b: seq<T>)
    requires sep !in b
    ensures CutLast(a + [sep] + b, sep) == (Some(a), b)
  {
    var s := a + [sep] + b;
    var n := |s| - 1;
    if b == [] {
      assert s[..n] == a;
    } else {
      var b' := b[..|b| - 1];
      assert s[..n] == a + [sep] + b';
      CutLastJoin(a, sep, b');
      assert b' + [s[n]] == b;
    }
  }

  /** What a cut returns, joined again, is the text. */
  lemma {:induction false} JoinCutFirst<T>(s: seq<T>, sep: T)
    ensures
      var (head, tail) := CutFirst(s, sep);
      sep !in head && s == head + (if tail.Some? then [sep] + tail.value else [])
  {
    if s == [] || s[0] == sep {
    } else {
      JoinCutFirst(s[1..], sep);
    }
  }

  // ------------------------------------------------------------ pipeline names

  datatype GVR = GVR(group: string, version: string, resource: string)

  function PipelineName(g: GVR): string {
    g.resource + "." + g.version + "." + g.group
  }

  /** Splits at the first two dots; nothing when there are fewer. */
  function ParseResourceArg(name: string): Option<GVR> {
    var (resource, rest) := CutFirst(name, '.');
    if rest.None? then None
    else
      var (version, group) := CutFirst(rest.value, '.');
      if group.None? then None else Some(GVR(group.value, version, resource))
  }

  /** Parsing gives back the printed GVR exactly when neither the resource nor the version has a dot. */
  lemma PipelineNameRoundTrip(g: GVR)
    ensures ParseResourceArg(PipelineName(g)) == Some(g) <==> '.' !in g.resource && '.' !in g.version
  {
    var name := PipelineName(g);
    assert name == g.resource + ['.'] + (g.version + ['.'] + g.group);
    if '.' !in g.resource && '.' !in g.version {
      CutFirstJoin(g.resource, '.', g.version + ['.'] + g.group);
      CutFirstJoin(g.version, '.', g.group);
    } else {
      JoinCutFirst(name, '.');
      var rest := CutFirst(name, '.').1;
      if rest.Some? {
        JoinCutFirst(rest.value, '.');
      }
    }
  }

  /** A parsed name is the print of its GVR, so two names never denote the same GVR. */
  lemma ParsedNamesAreDistinct(a: string, b: string)
    requires ParseResourceArg(a).Some?
    ensures PipelineName(ParseResourceArg(a).value) == a
    ensures ParseResourceArg(a) == ParseResourceArg(b) <==> a == b
  {
    PrintParsed(a);
    if ParseResourceArg(b).Some? {
      PrintParsed(b);
    }
  }

  lemma PrintParsed(a: string)
    requires ParseResourceArg(a).Some?
    ensures PipelineName(ParseResourceArg(a).value) == a
  {
    JoinCutFirst(a, '.');
    JoinCutFirst(CutFirst(a, '.').1.value, '.');
  }

  /** Whatever its fields hold, a printed GVR parses, if not always to itself. */
  lemma PrintedNamesParse(g: GVR)
    ensures ParseResourceArg(PipelineName(g)).Some?
  {
    var name := PipelineName(g);
    assert name == g.resource + ['.'] + (g.version + ['.'] + g.group);
    TailHasDot(g.resource, g.version + ['.'] + g.group);
  }

  /** After the first dot of `a.b`, whatever `a` holds, what is left ends with `b`. */
  lemma {:induction false} TailHasDot(a: string, b: string)
    requires '.' in b
    ensures CutFirst(a + ['.'] + b, '.').1.Some? && '.' in CutFirst(a + ['.'] + b, '.').1.value
    ensures CutFirst(CutFirst(a + ['.'] + b, '.').1.value, '.').1.Some?
  {
    var s := a + ['.'] + b;
    if a == [] {
      assert s[1..] == b;
    } else if a[0] == '.' {
      assert s[1..] == a[1..] + ['.'] + b;
      assert b[..] == s[1..][|a|..];
    } else {
      assert s[1..] == a[1..] + ['.'] + b;
      TailHasDot(a[1..], b);
    }
    CutsAtDot(CutFirst(s, '.').1.value);
  }

  lemma {:induction false} CutsAtDot(s: string)
    requires '.' in s
    ensures CutFirst(s, '.').1.Some?
  {
    if s[0] != '.' {
      CutsAtDot(s[1..]);
    }
  }

  /** The order of the fields: resource first, then version, then group. */
  lemma FieldsInOrder(g: GVR)
    ensures g.resource + "." + g.version + "." <= PipelineName(g)
    ensures PipelineName(g)[|g.resource| + |g.version| + 2..] == g.group
    ensures PipelineName(GVR("apps", "v1", "deployments")) == "deployments.v1.apps"
  {
    var name := PipelineName(g);
    assert name == (g.resource + "." + g.version + ".") + g.group;
    assert "deployments" + "." + "v1" + "." + "apps" == "deployments.v1.apps";
  }

  // ------------------------------------------------------------ session ids

  function ExecId(namespace: string, name: string, container: string, request: string): string {
    "exec." + namespace + "." + name + "." + container + "." + request
  }

  function LogId(namespace: string, name: string, container: string): string {
    "logs." + namespace + "." + name + "." + container
  }

  function DecodeExecId(id: string): Option<(string, string, string, string)> {
    var (namespace, rest) := CutFirst(if |id| < 5 then [] else id[5..], '.');
    if rest.None? then None
    else
      var (middle, request) := CutLast(rest.value, '.');
      if middle.None? then None
      else
        var (name, container) := CutLast(middle.value, '.');
        if name.None? then None else Some((namespace, name.value, container, request))
  }

  function DecodeLogId(id: string): Option<(string, string, string)> {
    var (namespace, rest) := CutFirst(if |id| < 5 then [] else id[5..], '.');
    if rest.None? then None
    else
      var (name, container) := CutLast(rest.value, '.');
      if name.None? then None else Some((namespace, name.value, container))
  }

  /** Pod names may contain dots; namespaces, container names and request ids do not. */
  lemma ExecIdRoundTrip(namespace: string, name: string, container: string, request: string)
    requires '.' !in namespace && '.' !in container && '.' !in request
    ensures DecodeExecId(ExecId(namespace, name, container, request)) == Some((namespace, name, container, request))
  {
    var id := ExecId(namespace, name, container, request);
    var middle := name + ['.'] + container;
    assert id[5..] == namespace + ['.'] + (middle + ['.'] + request);
    CutFirstJoin(namespace, '.', middle + ['.'] + request);
    CutLastJoin(middle, '.', request);
    CutLastJoin(name, '.', container);
  }

  lemma LogIdRoundTrip(namespace: string, name: string, container: string)
    requires '.' !in namespace && '.' !in container
    ensures DecodeLogId(LogId(namespace, name, container)) == Some((namespace, name, container))
  {
    var id := LogId(namespace, name, container);
    assert id[5..] == namespace + ['.'] + (name + ['.'] + container);
    CutFirstJoin(namespace, '.', name + ['.'] + container);
    CutLastJoin(name, '.', container);
  }

  /** The order of the fields: an example of either. */
  lemma SessionIdExamples()
    ensures ExecId("meshery", "pod.0", "app", "17") == "exec.meshery.pod.0.app.17"
    ensures LogId("meshery", "pod.0", "app") == "logs.meshery.pod.0.app"
  {
    assert "exec." + "meshery" + "." + "pod.0" + "." + "app" + "." + "17" == "exec.meshery.pod.0.app.17";
    assert "logs." + "meshery" + "." + "pod.0" + "." + "app" == "logs.meshery.pod.0.app";
  }

  /** The shared registry never confuses an exec session with a log stream, whatever the fields. */
  lemma ExecAndLogIdsDiffer(
      namespace: string, name: string, container: string, request: string,
      namespace': string, name': string, container': string)
    ensures ExecId(namespace, name, container, request) != LogId(namespace', name', container')
  {
    assert ExecId(namespace, name, container, request)[0] == 'e';
    assert LogId(namespace', name', container')[0] == 'l';
  }
}

/** Resource ids: the base64 text of a dotted identity. Text is bytes here, as in the program. */
module ResourceIdentity {
  import opened Resources
  import opened Names

  type Byte = b: int | 0 <= b < 256
  type Text = seq<Byte>

  const DOT: Byte := 46
  const SLASH: Byte := 47

  datatype Identity = Identity(clusterId: Text, kind: Text, apiVersion: Text, namespace: Text, name: Text)

  function IdentityText(i: Identity): Text {
    i.clusterId + [DOT] + i.kind + [DOT] + i.apiVersion + [DOT] + i.namespace + [DOT] + i.name
  }

  ghost predicate Plain(t: Text) {
    DOT !in t && SLASH !in t
  }

  /** A version, or a group, one slash, and a version; only the group may have dots. */
  ghost predicate IsApiVersion(t: Text) {
    Plain(t) || exists group, version :: t == group + [SLASH] + version && SLASH !in group && Plain(version)
  }

  /** What Kubernetes guarantees of the five fields. */
  ghost predicate WellNamed(i: Identity) {
    Plain(i.clusterId) && Plain(i.kind) && Plain(i.namespace) && IsApiVersion(i.apiVersion) && SLASH !in i.name
  }

  /** Reads version, namespace and name after the optional group. */
  function DecodeTail(prefix: Text, t: Text): Option<(Text, Text, Text)> {
    var (version, rest) := CutFirst(t, DOT);
    if rest.None? then None
    else
      var (namespace, name) := CutFirst(rest.value, DOT);
      if name.None? then None else Some((prefix + version, namespace, name.value))
  }

  /** Reads apiVersion, namespace and name: a slash ends the group, should there be one. */
  function DecodeVersioned(t: Text): Option<(Text, Text, Text)> {
    var (group, afterSlash) := CutFirst(t, SLASH);
    if afterSlash.Some? then DecodeTail(group + [SLASH], afterSlash.value) else DecodeTail([], t)
  }

  function DecodeIdentity(t: Text): Option<Identity> {
    var (cluster, rest) := CutFirst(t, DOT);
    if rest.None? then None
    else
      var (kind, rest') := CutFirst(rest.value, DOT);
      if rest'.None? then None
      else
        var tail := DecodeVersioned(rest'.value);
        if tail.None? then None else Some(Identity(cluster, kind, tail.value.0, tail.value.1, tail.value.2))
  }

  lemma TailRoundTrip(prefix: Text, version: Text, namespace: Text, name: Text)
    requires DOT !in version && DOT !in namespace
    ensures DecodeTail(prefix, version + [DOT] + (namespace + [DOT] + name)) ==
      Some((prefix + version, namespace, name))
  {
    CutFirstJoin(version, DOT, namespace + [DOT] + name);
    CutFirstJoin(namespace, DOT, name);
  }

  lemma {:induction false} NoCut(t: Text)
    requires SLASH !in t
    ensures CutFirst(t, SLASH) == (t, None)
  {
    if t == [] {
    } else {
      NoCut(t[1..]);
      assert [t[0]] + t[1..] == t;
    }
  }

  lemma VersionedRoundTrip(apiVersion: Text, namespace: Text, name: Text)
    requires IsApiVersion(apiVersion) && Plain(namespace) && SLASH !in name
    ensures DecodeVersioned(apiVersion + [DOT] + (namespace + [DOT] + name)) == Some((apiVersion, namespace, name))
  {
    var nsName := namespace + [DOT] + name;
    var t := apiVersion + [DOT] + nsName;
    if Plain(apiVersion) {
      NoCut(t);
      TailRoundTrip([], apiVersion, namespace, name);
      assert [] + apiVersion == apiVersion;
    } else {
      var group, version :| apiVersion == group + [SLASH] + version && SLASH !in group && Plain(version);
      assert t == group + [SLASH] + (version + [DOT] + nsName);
      CutFirstJoin(group, SLASH, version + [DOT] + nsName);
      TailRoundTrip(group + [SLASH], version, namespace, name);
    }
  }

  lemma IdentityRoundTrip(i: Identity)
    requires WellNamed(i)
    ensures DecodeIdentity(IdentityText(i)) == Some(i)
  {
    var rest' := i.apiVersion + [DOT] + (i.namespace + [DOT] + i.name);
    assert IdentityText(i) == i.clusterId + [DOT] + (i.kind + [DOT] + rest');
    CutFirstJoin(i.clusterId, DOT, i.kind + [DOT] + rest');
    CutFirstJoin(i.kind, DOT, rest');
    VersionedRoundTrip(i.apiVersion, i.namespace, i.name);
  }

  // ------------------------------------------------------------ base64, section 4 of RFC 4648

  /** A digit of the alphabet A-Z, a-z, 0-9, +, /. */
  function Digit(d: int): Byte
    requires 0 <= d < 64
  {
    if d < 26 then 65 + d else if d < 52 then 71 + d else if d < 62 then d - 4 else if d == 62 then 43 else 47
  }

  const PAD: Byte := 61

  function Value(c: Byte): int {
    if 65 <= c < 91 then c - 65 else if 97 <= c < 123 then c - 71
    else if 48 <= c < 58 then c + 4 else if c == 43 then 62 else if c == 47 then 63 else 0
  }

  /** Three bytes as four six-bit numbers, and back. */
  function Split(x: Byte, y: Byte, z: Byte): (int, int, int, int) {
    (x / 4, x % 4 * 16 + y / 16, y % 16 * 4 + z / 64, z % 64)
  }

  function Merge(a: int, b: int, c: int, d: int): (Byte, Byte, Byte) {
    ((a * 4 + b / 16) % 256, (b % 16 * 16 + c / 4) % 256, (c % 4 * 64 + d) % 256)
  }

  function Group(x: Byte, y: Byte, z: Byte): (r: Text)
    ensures |r| == 4
  {
    var (a, b, c, d) := Split(x, y, z);
    [Digit(a), Digit(b), Digit(c), Digit(d)]
  }

  function Ungroup(r: Text): (Byte, Byte, Byte)
    requires |r| == 4
  {
    Merge(Value(r[0]), Value(r[1]), Value(r[2]), Value(r[3]))
  }

  function EncodeBase64(t: Text): (r: Text)
    ensures |r| == (|t| + 2) / 3 * 4
  {
    if |t| == 0 then []
    else if |t| == 1 then Group(t[0], 0, 0)[..2] + [PAD, PAD]
    else if |t| == 2 then Group(t[0], t[1], 0)[..3] + [PAD]
    else Group(t[0], t[1], t[2]) + EncodeBase64(t[3..])
  }

  function DecodeBase64(r: Text): Text {
    if |r| < 4 then []
    else
      var (x, y, z) := Ungroup(r[..4]);
      if r[2] == PAD then [x] else if r[3] == PAD then [x, y] else [x, y, z] + DecodeBase64(r[4..])
  }

  lemma DigitRoundTrip(d: int)
    requires 0 <= d < 64
    ensures Value(Digit(d)) == d && Digit(d) != PAD
  {
  }

  lemma SplitByte(x: Byte, y: Byte)
    ensures
      var low := x % 4 * 16 + y / 16;
      0 <= low < 64 && x / 4 * 4 + low / 16 == x && low % 16 == y / 16
  {
  }

  lemma SplitNibble(y: Byte, z: Byte)
    ensures
      var low := y % 16 * 4 + z / 64;
      0 <= low < 64 && y / 16 * 16 + low / 4 == y && low % 4 * 64 + z % 64 == z
  {
  }

  lemma MergeExactly(a: int, b: int, c: int, d: int, x: Byte, y: Byte, z: Byte)
    requires a * 4 + b / 16 == x && b % 16 * 16 + c / 4 == y && c % 4 * 64 + d == z
    ensures Merge(a, b, c, d) == (x, y, z)
  {
  }

  lemma SplitMerge(x: Byte, y: Byte, z: Byte)
    ensures
      var (a, b, c, d) := Split(x, y, z);
      && 0 <= a < 64 && 0 <= b < 64 && 0 <= c < 64 && 0 <= d < 64
      && Merge(a, b, c, d) == (x, y, z)
  {
    SplitByte(x, y);
    SplitNibble(y, z);
    var (a, b, c, d) := Split(x, y, z);
    MergeExactly(a, b, c, d, x, y, z);
  }

  lemma GroupRoundTrip(x: Byte, y: Byte, z: Byte)
    ensures Ungroup(Group(x, y, z)) == (x, y, z)
    ensures PAD !in Group(x, y, z)
  {
    var (a, b, c, d) := Split(x, y, z);
    SplitMerge(x, y, z);
    DigitRoundTrip(a);
    DigitRoundTrip(b);
    DigitRoundTrip(c);
    DigitRoundTrip(d);
  }

  lemma UngroupByValues(r: Text, r': Text)
    requires |r| == |r'| == 4 && forall k :: 0 <= k < 4 ==> Value(r[k]) == Value(r'[k])
    ensures Ungroup(r) == Ungroup(r')
  {
  }

  /** A padding character counts as the digit zero. */
  lemma PaddedGroup(g: Text, n: nat)
    requires |g| == 4 && 2 <= n < 4 && forall k :: n <= k < 4 ==> g[k] == Digit(0)
    ensures Ungroup(g[..n] + [PAD, PAD][..4 - n]) == Ungroup(g)
  {
    UngroupByValues(g[..n] + [PAD, PAD][..4 - n], g);
  }

  lemma OneByteRoundTrip(x: Byte)
    ensures DecodeBase64(Group(x, 0, 0)[..2] + [PAD, PAD]) == [x]
  {
    var r := Group(x, 0, 0)[..2] + [PAD, PAD];
    GroupRoundTrip(x, 0, 0);
    PaddedGroup(Group(x, 0, 0), 2);
    assert r[..4] == r;
  }

  lemma TwoBytesRoundTrip(x: Byte, y: Byte)
    ensures DecodeBase64(Group(x, y, 0)[..3] + [PAD]) == [x, y]
  {
    var g := Group(x, y, 0);
    var r := g[..3] + [PAD];
    GroupRoundTrip(x, y, 0);
    PaddedGroup(g, 3);
    assert g[2] in g;
    assert r[..4] == r && r[2] == g[2];
  }

  lemma ThreeBytesRoundTrip(x: Byte, y: Byte, z: Byte, rest: Text)
    ensures DecodeBase64(Group(x, y, z) + rest) == [x, y, z] + DecodeBase64(rest)
  {
    var g := Group(x, y, z);
    GroupRoundTrip(x, y, z);
    assert g[2] in g && g[3] in g;
    assert (g + rest)[..4] == g && (g + rest)[4..] == rest;
  }

  lemma {:induction false} Base64RoundTrip(t: Text)
    ensures DecodeBase64(EncodeBase64(t)) == t
  {
    if |t| == 1 {
      OneByteRoundTrip(t[0]);
    } else if |t| == 2 {
      TwoBytesRoundTrip(t[0], t[1]);
    } else if |t| > 2 {
      ThreeBytesRoundTrip(t[0], t[1], t[2], EncodeBase64(t[3..]));
      Base64RoundTrip(t[3..]);
      assert t == [t[0], t[1], t[2]] + t[3..];
    }
  }

  lemma GroupOf(x: Byte, y: Byte, z: Byte, r: Text)
    requires |r| == 4
    requires r[0] == Digit(x / 4) && r[1] == Digit(x % 4 * 16 + y / 16)
    requires r[2] == Digit(y % 16 * 4 + z / 64) && r[3] == Digit(z % 64)
    ensures Group(x, y, z) == r
  {
  }

  /** The example of section 10 of RFC 4648 for "f". */
  lemma Base64OfF()
    ensures EncodeBase64([102]) == [90, 103, 61, 61]
  {
    GroupOf(102, 0, 0, [90, 103, 65, 65]);
  }

  /** The example for "fo". */
  lemma Base64OfFo()
    ensures EncodeBase64([102, 111]) == [90, 109, 56, 61]
  {
    GroupOf(102, 111, 0, [90, 109, 56, 65]);
  }

  lemma EncodeThree(x: Byte, y: Byte, z: Byte, rest: Text)
    ensures EncodeBase64([x, y, z] + rest) == Group(x, y, z) + EncodeBase64(rest)
  {
    assert ([x, y, z] + rest)[3..] == rest;
  }

  /** The example for "foobar". */
  lemma Base64OfFoobar()
    ensures EncodeBase64([102, 111, 111] + ([98, 97, 114] + [])) == [90, 109, 57, 118] + ([89, 109, 70, 121] + [])
  {
    EncodeThree(102, 111, 111, [98, 97, 114] + []);
    EncodeThree(98, 97, 114, []);
    GroupOf(102, 111, 111, [90, 109, 57, 118]);
    GroupOf(98, 97, 114, [89, 109, 70, 121]);
  }

  /** The order of the fields: cluster id, kind and apiVersion come first, namespace and name last. */
  lemma IdentityInOrder(i: Identity)
    ensures i.clusterId + [DOT] + i.kind + [DOT] + i.apiVersion + [DOT] <= IdentityText(i)
    ensures
      IdentityText(i)[|i.clusterId| + |i.kind| + |i.apiVersion| + 3..] == i.namespace + [DOT] + i.name
  {
    assert IdentityText(i) ==
      (i.clusterId + [DOT] + i.kind + [DOT] + i.apiVersion + [DOT]) + (i.namespace + [DOT] + i.name);
  }

  function ResourceId(i: Identity): Text {
    EncodeBase64(IdentityText(i))
  }

  /** Under Kubernetes naming, two resources share an id exactly when all five fields agree. */
  lemma ResourceIdIsInjective(a: Identity, b: Identity)
    requires WellNamed(a) && WellNamed(b)
    ensures ResourceId(a) == ResourceId(b) <==> a == b
  {
    Base64RoundTrip(IdentityText(a));
    Base64RoundTrip(IdentityText(b));
    IdentityRoundTrip(a);
    IdentityRoundTrip(b);
  }

  /** The naming rules are needed: a dot moved from the name into the namespace changes nothing. */
  lemma DottedNamespaceCollides(i: Identity, x: Text)
    ensures ResourceId(i.(name := x + [DOT] + i.name)) == ResourceId(i.(namespace := i.namespace + [DOT] + x))
  {
    assert IdentityText(i.(name := x + [DOT] + i.name)) == IdentityText(i.(namespace := i.namespace + [DOT] + x));
  }
}
