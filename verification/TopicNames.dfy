// Topic names: validity, full qualification, decomposition and clean-up
// (src/TopicUtils.cc).
module TopicNames {
  import opened Options
  import opened Strings

  const MAX_NAME_LENGTH: nat := 65535

  predicate IsValidNamespace(ns: string) {
    ns == "" ||
    (&& |ns| <= MAX_NAME_LENGTH
     && ns != "/"
     && '~' !in ns
     && ' ' !in ns
     && !HasPair(ns, '/', '/')
     && '@' !in ns
     && !HasPair(ns, ':', '='))
  }

  predicate IsValidPartition(partition: string) {
    IsValidNamespace(partition)
  }

  predicate IsValidTopic(topic: string) {
    IsValidNamespace(topic) && topic != ""
  }

  // ---- What the edits of FullyQualifiedName amount to ----

  predicate StartsWithSlash(s: string) {
    s != "" && s[0] == '/'
  }

  predicate EndsWithSlash(s: string) {
    s != "" && s[|s| - 1] == '/'
  }

  function DropTrailingSlash(s: string): string {
    if EndsWithSlash(s) then s[..|s| - 1] else s
  }

  /** The partition as it stands between the two '@'. */
  function NormalPartition(partition: string): string {
    DropTrailingSlash(if partition != "" && !StartsWithSlash(partition) then "/" + partition else partition)
  }

  /** The namespace as a directory: a slash at both ends. */
  function NamespacePrefix(ns: string): string {
    var withEnd := if EndsWithSlash(ns) then ns else ns + "/";
    if StartsWithSlash(withEnd) then withEnd else "/" + withEnd
  }

  /** The topic as it stands after the second '@'. */
  function AbsoluteTopic(ns: string, topic: string): string {
    var t := DropTrailingSlash(topic);
    if StartsWithSlash(t) then t else NamespacePrefix(ns) + t
  }

  function Compose(partition: string, topic: string): string {
    "@" + partition + "@" + topic
  }

  /** The value FullyQualifiedName leaves in its out-parameter, or None. */
  function QualifiedName(partition: string, ns: string, topic: string): Option<string> {
    var name := Compose(NormalPartition(partition), AbsoluteTopic(ns, topic));
    if IsValidPartition(partition) && IsValidNamespace(ns) && IsValidTopic(topic) && |name| <= MAX_NAME_LENGTH
    then Some(name)
    else None
  }

  // ---- The same, without the edits ----

  /** Without a slash at the start, and without one at the end. */
  function EdgeTrimmed(s: string): string {
    var t := if s != "" && s[0] == '/' then s[1..] else s;
    if t != "" && t[|t| - 1] == '/' then t[..|t| - 1] else t
  }

  /** The partition gets a slash in front. A relative topic is put below its
      namespace, if there is one; an absolute topic stands for itself. */
  function NameFor(partition: string, ns: string, topic: string): string {
    "@" + (if partition == "" then "" else "/" + EdgeTrimmed(partition)) + "@" +
    (if ns == "" || StartsWithSlash(topic) then "/" + EdgeTrimmed(topic)
     else "/" + EdgeTrimmed(ns) + "/" + EdgeTrimmed(topic))
  }

  lemma PartitionIsTrimmed(partition: string)
    requires IsValidPartition(partition)
    ensures NormalPartition(partition) == if partition == "" then "" else "/" + EdgeTrimmed(partition)
  {
    if partition != "" && !StartsWithSlash(partition) {
      assert ("/" + partition)[1..] == partition;
      assert EndsWithSlash(partition) ==> ("/" + partition)[..|partition|] == "/" + partition[..|partition| - 1];
    } else if partition != "" {
      assert partition == "/" + partition[1..];
      assert |partition| > 1;
      assert EndsWithSlash(partition) ==> partition[..|partition| - 1] == "/" + partition[1..][..|partition| - 2];
    }
  }

  lemma NamespaceIsTrimmed(ns: string)
    requires IsValidNamespace(ns)
    ensures NamespacePrefix(ns) == if ns == "" then "/" else "/" + EdgeTrimmed(ns) + "/"
  {
    if ns != "" {
      var t := if StartsWithSlash(ns) then ns[1..] else ns;
      assert |t| > 0;
      var withEnd := if EndsWithSlash(ns) then ns else ns + "/";
      assert withEnd == (if StartsWithSlash(ns) then "/" else "") + EdgeTrimmed(ns) + "/";
    }
  }

  lemma TopicIsTrimmed(topic: string)
    requires IsValidTopic(topic)
    ensures DropTrailingSlash(topic) == if StartsWithSlash(topic) then "/" + EdgeTrimmed(topic) else EdgeTrimmed(topic)
    ensures StartsWithSlash(DropTrailingSlash(topic)) <==> StartsWithSlash(topic)
  {
    if StartsWithSlash(topic) {
      assert topic == "/" + topic[1..];
      assert |topic| > 1;
    }
  }

  /** The edits amount to that. */
  lemma QualifiedNameIs(partition: string, ns: string, topic: string)
    requires QualifiedName(partition, ns, topic).Some?
    ensures QualifiedName(partition, ns, topic) == Some(NameFor(partition, ns, topic))
  {
    hide NormalPartition, AbsoluteTopic, EdgeTrimmed, IsValidPartition, IsValidNamespace, IsValidTopic;
    PartitionIsTrimmed(partition);
    AbsoluteTopicIs(ns, topic);
  }

  lemma AbsoluteTopicIs(ns: string, topic: string)
    requires IsValidNamespace(ns) && IsValidTopic(topic)
    ensures AbsoluteTopic(ns, topic) == if ns == "" || StartsWithSlash(topic) then "/" + EdgeTrimmed(topic)
                                        else "/" + EdgeTrimmed(ns) + "/" + EdgeTrimmed(topic)
  {
    hide NamespacePrefix, DropTrailingSlash, EdgeTrimmed, IsValidNamespace, IsValidTopic;
    NamespaceIsTrimmed(ns);
    TopicIsTrimmed(topic);
  }

  method FullyQualifiedName(partition: string, ns: string, topic: string) returns (ok: bool, name: string)
    ensures ok <==> QualifiedName(partition, ns, topic).Some?
    ensures ok ==> QualifiedName(partition, ns, topic) == Some(name) && name == NameFor(partition, ns, topic)
  {
    if QualifiedName(partition, ns, topic).Some? {
      QualifiedNameIs(partition, ns, topic);
    }
    hide NameFor;
    name := "";
    if !IsValidPartition(partition) || !IsValidNamespace(ns) || !IsValidTopic(topic) {
      return false, name;
    }
    var p, n, t := partition, ns, topic;
    if p != "" && p[0] != '/' {
      p := "/" + p;
    }
    if p != "" && p[|p| - 1] == '/' {
      p := p[..|p| - 1];
    }
    assert p == NormalPartition(partition);
    if n == "" || n[|n| - 1] != '/' {
      n := n + "/";
    }
    if n == "" || n[0] != '/' {
      n := "/" + n;
    }
    assert n == NamespacePrefix(ns);
    if t != "" && t[|t| - 1] == '/' {
      t := t[..|t| - 1];
    }
    if t != "" && t[0] == '/' {
      name := t;
    } else {
      name := n + t;
    }
    assert name == AbsoluteTopic(ns, topic);
    name := "@" + p + "@" + name;
    ok := |name| <= MAX_NAME_LENGTH;
  }

  /** The two halves around the last '@', when both are valid. */
  function Decompose(name: string): Option<(string, string)> {
    var firstAt := IndexOf(name, '@');
    var lastAt := LastIndexOf(name, '@');
    if firstAt != 0 || firstAt == lastAt || lastAt >= |name| - 1 then None
    else
      var partition := name[firstAt + 1..lastAt];
      var topic := name[lastAt + 1..];
      if IsValidPartition(partition) && IsValidTopic(topic) then Some((partition, topic)) else None
  }

  // ---- Properties ----

  /** DecomposeFullyQualifiedTopic accepts exactly the strings "@p@t" with p
      a valid partition and t a valid topic, and returns that p and t. */
  lemma DecomposeExact(name: string, partition: string, topic: string)
    ensures Decompose(name) == Some((partition, topic))
       <==> name == Compose(partition, topic) && IsValidPartition(partition) && IsValidTopic(topic)
  {
    hide IndexOf, LastIndexOf, Compose, IsValidPartition, IsValidTopic;
    if name == Compose(partition, topic) && IsValidPartition(partition) && IsValidTopic(topic) {
      ComposeDecomposes(partition, topic);
    }
    if Decompose(name) == Some((partition, topic)) {
      TwoHalves(name, LastIndexOf(name, '@'));
    }
  }

  lemma TwoHalves(name: string, k: nat)
    requires 0 < k < |name| && name[0] == '@' && name[k] == '@'
    ensures name == Compose(name[1..k], name[k + 1..])
  {
    assert name == name[..1] + name[1..k] + name[k..k + 1] + name[k + 1..];
  }

  lemma ComposeDecomposes(partition: string, topic: string)
    requires IsValidPartition(partition) && IsValidTopic(topic)
    ensures Decompose(Compose(partition, topic)) == Some((partition, topic))
  {
    ComposedAt(partition, topic);
    hide IndexOf, LastIndexOf, Compose;
  }

  /** Where the two '@' are, and the halves around the second. */
  lemma ComposedAt(partition: string, topic: string)
    requires '@' !in topic
    ensures var name, k := Compose(partition, topic), |partition| + 1;
            && |name| == k + 1 + |topic| && IndexOf(name, '@') == 0 && LastIndexOf(name, '@') == k
            && name[1..k] == partition && name[k + 1..] == topic
  {
    var name, k := Compose(partition, topic), |partition| + 1;
    assert name[0] == '@' && name[k] == '@';
    assert name[k + 1..] == topic && name[1..k] == partition;
    assert forall i :: k < i < |name| ==> name[i] == topic[i - k - 1] && name[i] != '@';
    hide IndexOf, LastIndexOf, Compose;
  }

  /** The documented shape of the two halves of a qualified name. */
  predicate NormalHalves(partition: string, topic: string) {
    && IsValidPartition(partition)
    && IsValidTopic(topic)
    && (partition == "" || (StartsWithSlash(partition) && !EndsWithSlash(partition)))
    && StartsWithSlash(topic)
    && !EndsWithSlash(topic)
  }

  lemma DropTrailingSlashValid(s: string)
    requires || IsValidNamespace(s)
             || (StartsWithSlash(s) && IsValidNamespace(s[1..]) && !StartsWithSlash(s[1..]) && s != "/")
    ensures var r := DropTrailingSlash(s); !EndsWithSlash(r) && (s != "" ==> r != "") && r != "/"
    ensures var r := DropTrailingSlash(s);
            '~' !in r && ' ' !in r && '@' !in r && !HasPair(r, '/', '/') && !HasPair(r, ':', '=')
  {
    var r := DropTrailingSlash(s);
    if s != "" {
      HasPairTail(s, '/', '/');
      HasPairTail(s, ':', '=');
      assert s == [s[0]] + s[1..];
    }
    if |s| >= 2 {
      NoPairAt(s, |s| - 2, '/', '/');
    }
    assert forall i :: 0 <= i < |r| ==> r[i] == s[i];
  }

  /** Concatenating a directory "/.../" and a relative topic creates no
      forbidden pair at the joint. */
  lemma NamespaceJoin(ns: string, t: string)
    requires IsValidNamespace(ns) && t != "" && !StartsWithSlash(t)
    requires '~' !in t && ' ' !in t && '@' !in t && !HasPair(t, '/', '/') && !HasPair(t, ':', '=')
    ensures var r := NamespacePrefix(ns) + t;
            '~' !in r && ' ' !in r && '@' !in r && !HasPair(r, '/', '/') && !HasPair(r, ':', '=')
  {
    var prefix := NamespacePrefix(ns);
    NamespacePrefixClean(ns);
    var r := prefix + t;
    forall a: char, b: char | HasPair(r, a, b)
      ensures HasPair(prefix, a, b) || HasPair(t, a, b) || (a == '/' && b == t[0])
    {
      var i :| 0 <= i < |r| - 1 && r[i] == a && r[i + 1] == b;
      if i + 1 < |prefix| {
        assert prefix[i] == a && prefix[i + 1] == b;
      } else if i >= |prefix| {
        var k := i - |prefix|;
        assert t[k] == a && t[k + 1] == b;
      }
    }
  }

  lemma NamespacePrefixClean(ns: string)
    requires IsValidNamespace(ns)
    ensures var r := NamespacePrefix(ns);
            StartsWithSlash(r) && EndsWithSlash(r)
            && '~' !in r && ' ' !in r && '@' !in r && !HasPair(r, '/', '/') && !HasPair(r, ':', '=')
  {
    var r := NamespacePrefix(ns);
    var shift := if StartsWithSlash(ns) || ns == "" then 0 else 1;
    assert forall i :: shift <= i < shift + |ns| ==> r[i] == ns[i - shift];
    forall a: char, b: char | HasPair(r, a, b) && (b == '/' || b == '=') && (a == ':' || a == '/')
      ensures HasPair(ns, a, b) || (a == ':' && b == '/') || (a == '/' && b == '=')
    {
      var i :| 0 <= i < |r| - 1 && r[i] == a && r[i + 1] == b;
      if shift <= i && i + 1 < shift + |ns| {
        var k := i - shift;
        assert ns[k] == a && ns[k + 1] == b;
      }
    }
  }

  /** Whenever FullyQualifiedName succeeds, DecomposeFullyQualifiedTopic
      succeeds on its result, gives back the normalised partition and the
      absolute topic, and these have the documented shape. */
  lemma QualifiedDecomposes(partition: string, ns: string, topic: string)
    requires QualifiedName(partition, ns, topic).Some?
    ensures Decompose(QualifiedName(partition, ns, topic).value)
         == Some((NormalPartition(partition), AbsoluteTopic(ns, topic)))
    ensures NormalHalves(NormalPartition(partition), AbsoluteTopic(ns, topic))
  {
    var p, t := NormalPartition(partition), AbsoluteTopic(ns, topic);
    assert |Compose(p, t)| == |p| + |t| + 2;
    hide NormalPartition, AbsoluteTopic, Compose, Decompose, IsValidPartition, IsValidNamespace, IsValidTopic;
    NormalPartitionValid(partition);
    AbsoluteTopicValid(ns, topic);
    ComposeDecomposes(p, t);
  }

  lemma NormalPartitionValid(partition: string)
    requires IsValidPartition(partition) && |NormalPartition(partition)| <= MAX_NAME_LENGTH
    ensures var p := NormalPartition(partition);
            IsValidPartition(p) && (p == "" || (StartsWithSlash(p) && !EndsWithSlash(p)))
  {
    if partition != "" && !StartsWithSlash(partition) {
      assert ("/" + partition)[1..] == partition;
      DropTrailingSlashValid("/" + partition);
    } else {
      DropTrailingSlashValid(partition);
    }
  }

  lemma AbsoluteTopicValid(ns: string, topic: string)
    requires IsValidNamespace(ns) && IsValidTopic(topic) && |AbsoluteTopic(ns, topic)| <= MAX_NAME_LENGTH
    ensures var t := AbsoluteTopic(ns, topic); IsValidTopic(t) && StartsWithSlash(t) && !EndsWithSlash(t)
  {
    var t := DropTrailingSlash(topic);
    DropTrailingSlashValid(topic);
    hide DropTrailingSlash, NamespacePrefix, HasPair;
    if !StartsWithSlash(t) {
      NamespaceJoin(ns, t);
      NamespacePrefixClean(ns);
    }
  }

  /** Qualifying the decomposed topic again, under any spelling of the same
      partition and any valid namespace, is the identity. */
  lemma RequalifyIsIdentity(name: string, partition: string, otherNs: string)
    requires Decompose(name).Some? && |name| <= MAX_NAME_LENGTH
    requires NormalHalves(Decompose(name).value.0, Decompose(name).value.1)
    requires IsValidPartition(partition) && NormalPartition(partition) == Decompose(name).value.0
    requires IsValidNamespace(otherNs)
    ensures QualifiedName(partition, otherNs, Decompose(name).value.1) == Some(name)
  {
    DecomposeExact(name, Decompose(name).value.0, Decompose(name).value.1);
  }

  /** A normalised partition is a fixed point of normalisation. */
  lemma NormalPartitionIdempotent(partition: string)
    requires IsValidPartition(partition)
    ensures NormalPartition(NormalPartition(partition)) == NormalPartition(partition)
  {
    if partition != "" && !StartsWithSlash(partition) {
      assert ("/" + partition)[1..] == partition;
      DropTrailingSlashValid("/" + partition);
    } else {
      DropTrailingSlashValid(partition);
    }
  }

  /** Two calls give the same name exactly when they agree on the normalised
      partition and on the absolute topic. */
  lemma QualifiedNamesAgreeIff(p1: string, ns1: string, t1: string, p2: string, ns2: string, t2: string)
    requires QualifiedName(p1, ns1, t1).Some? && QualifiedName(p2, ns2, t2).Some?
    ensures QualifiedName(p1, ns1, t1) == QualifiedName(p2, ns2, t2)
       <==> NormalPartition(p1) == NormalPartition(p2) && AbsoluteTopic(ns1, t1) == AbsoluteTopic(ns2, t2)
  {
    QualifiedDecomposes(p1, ns1, t1);
    QualifiedDecomposes(p2, ns2, t2);
  }

  /** Two namespaces give one relative topic the same name if and only if they
      agree up to slashes at either end; an absolute topic ignores them. */
  lemma NamespacesAgreeIff(partition: string, ns1: string, ns2: string, topic: string)
    requires QualifiedName(partition, ns1, topic).Some? && QualifiedName(partition, ns2, topic).Some?
    ensures QualifiedName(partition, ns1, topic) == QualifiedName(partition, ns2, topic)
       <==> StartsWithSlash(topic) || EdgeTrimmed(ns1) == EdgeTrimmed(ns2)
  {
    QualifiedNamesAgreeIff(partition, ns1, topic, partition, ns2, topic);
    TopicIsTrimmed(topic);
    PrefixesAgreeIff(ns1, ns2);
    var t := DropTrailingSlash(topic);
    assert AbsoluteTopic(ns1, topic) == if StartsWithSlash(topic) then t else NamespacePrefix(ns1) + t;
    assert AbsoluteTopic(ns2, topic) == if StartsWithSlash(topic) then t else NamespacePrefix(ns2) + t;
    hide NamespacePrefix, DropTrailingSlash, EdgeTrimmed, QualifiedName, NormalPartition, AbsoluteTopic;
    if NamespacePrefix(ns1) + t == NamespacePrefix(ns2) + t {
      SamePrefix(NamespacePrefix(ns1), NamespacePrefix(ns2), t);
    }
  }

  lemma PrefixesAgreeIff(ns1: string, ns2: string)
    requires IsValidNamespace(ns1) && IsValidNamespace(ns2)
    ensures NamespacePrefix(ns1) == NamespacePrefix(ns2) <==> EdgeTrimmed(ns1) == EdgeTrimmed(ns2)
  {
    NamespaceIsTrimmed(ns1);
    NamespaceIsTrimmed(ns2);
    TrimmedIsEmpty(ns1);
    TrimmedIsEmpty(ns2);
    hide NamespacePrefix, EdgeTrimmed, IsValidNamespace;
    var a, b := EdgeTrimmed(ns1), EdgeTrimmed(ns2);
    assert ("/" + a + "/")[1..|a| + 1] == a && ("/" + b + "/")[1..|b| + 1] == b;
  }

  lemma DoubleSlashIsPair()
    ensures HasPair("//", '/', '/')
  {
    assert "//"[0] == '/' && "//"[0 + 1] == '/';
  }

  lemma TrimmedIsEmpty(ns: string)
    requires IsValidNamespace(ns)
    ensures EdgeTrimmed(ns) == "" <==> ns == ""
  {
    DoubleSlashIsPair();
    assert ns != "//";
    assert |ns| == 2 ==> ns == [ns[0], ns[1]];
  }

  lemma SamePrefix(a: string, b: string, t: string)
    requires a + t == b + t
    ensures a == b
  {
    assert |a| == |b|;
    assert (a + t)[..|a|] == a && (b + t)[..|b|] == b;
  }

  /** Every spelling of a namespace puts a topic below it. */
  lemma NamespaceNests(partition: string, ns: string, spelled: string, topic: string)
    requires ns != "" && !StartsWithSlash(ns) && !EndsWithSlash(ns)
    requires spelled == ns || spelled == "/" + ns || spelled == ns + "/" || spelled == "/" + ns + "/"
    requires !StartsWithSlash(topic) && !EndsWithSlash(topic) && QualifiedName(partition, spelled, topic).Some?
    ensures Decompose(QualifiedName(partition, spelled, topic).value).Some?
    ensures Decompose(QualifiedName(partition, spelled, topic).value).value.1 == "/" + ns + "/" + topic
  {
    QualifiedDecomposes(partition, spelled, topic);
    NamespaceIsTrimmed(spelled);
    SpellingIsTrimmed(ns, spelled);
    assert AbsoluteTopic(spelled, topic) == NamespacePrefix(spelled) + topic;
    hide EdgeTrimmed, NamespacePrefix, Decompose, AbsoluteTopic, NormalPartition, NormalHalves;
    assert ("/" + ns + "/") + topic == "/" + ns + "/" + topic;
  }

  lemma SpellingIsTrimmed(ns: string, spelled: string)
    requires ns != "" && !StartsWithSlash(ns) && !EndsWithSlash(ns)
    requires spelled == ns || spelled == "/" + ns || spelled == ns + "/" || spelled == "/" + ns + "/"
    ensures EdgeTrimmed(spelled) == ns && spelled != ""
  {
    assert ("/" + ns)[1..] == ns && (ns + "/")[..|ns|] == ns && ("/" + ns + "/")[1..] == ns + "/";
  }

  /** Not every name that decomposes is a normalised one: "@a@b" does. */
  lemma DecomposeAcceptsUnnormalised()
    ensures Decompose("@a@b") == Some(("a", "b"))
    ensures !NormalHalves("a", "b")
  {
    assert Compose("a", "b") == "@a@b";
    ComposeDecomposes("a", "b");
  }

  // ---- AsValidTopic ----

  /** What the filter loop of AsValidTopic keeps. */
  function Cleaned(s: string): string
    decreases |s|
  {
    if s == "" then ""
    else if s[0] == ' ' then "_" + Cleaned(s[1..])
    else if s[0] == '@' || s[0] == '~' then Cleaned(s[1..])
    else if PairAt(s, 0, ':', '=') || PairAt(s, 0, '/', '/') then Cleaned(s[2..])
    else [s[0]] + Cleaned(s[1..])
  }

  lemma CleanedAt(s: string, i: nat, before: string)
    requires i < |s|
    ensures before + Cleaned(s[i..])
         == if s[i] == ' ' then before + "_" + Cleaned(s[i + 1..])
            else if s[i] == '@' || s[i] == '~' then before + Cleaned(s[i + 1..])
            else if PairAt(s, i, ':', '=') || PairAt(s, i, '/', '/') then before + Cleaned(s[i + 2..])
            else before + [s[i]] + Cleaned(s[i + 1..])
  {
    assert s[i..][1..] == s[i + 1..];
    if i + 1 < |s| {
      assert s[i..][1] == s[i + 1] && s[i..][2..] == s[i + 2..];
    }
  }

  /** The filter works piece by piece, as long as no pair is torn apart. */
  lemma {:induction false} CleanedConcat(s: string, t: string)
    requires s == "" || t == "" || !IsPair(s[|s| - 1], t[0])
    ensures Cleaned(s + t) == Cleaned(s) + Cleaned(t)
    decreases |s|
  {
    assert Cleaned("") == "";
    hide Cleaned, IsPair;
    if s == "" {
      assert s + t == t;
    } else if t == "" {
      assert s + t == s;
    } else {
      CleanedHead(s + t);
      CleanedHead(s);
      HeadOfConcat(s, t);
      CleanedConcat(s[1..], t);
      Reassociate("_", Cleaned(s[1..]), Cleaned(t));
      Reassociate([s[0]], Cleaned(s[1..]), Cleaned(t));
      if |s| >= 2 {
        CleanedConcat(s[2..], t);
      }
    }
  }

  lemma HeadOfConcat(s: string, t: string)
    requires s != "" && t != ""
    ensures var u := s + t;
            && u[0] == s[0] && u[1] == (if |s| >= 2 then s[1] else t[0]) && u[1..] == s[1..] + t
            && (|s| >= 2 ==> u[2..] == s[2..] + t)
            && (|s| >= 2 ==> s[1..][|s[1..]| - 1] == s[|s| - 1])
            && (|s| >= 3 ==> s[2..][|s[2..]| - 1] == s[|s| - 1])
  {
  }

  lemma Reassociate(a: string, b: string, c: string)
    ensures (a + b) + c == a + (b + c)
  {
  }

  predicate IsPair(a: char, b: char) {
    (a == ':' && b == '=') || (a == '/' && b == '/')
  }

  lemma CleanedHead(s: string)
    requires s != ""
    ensures Cleaned(s) == if s[0] == ' ' then "_" + Cleaned(s[1..])
                          else if s[0] == '@' || s[0] == '~' then Cleaned(s[1..])
                          else if |s| >= 2 && IsPair(s[0], s[1]) then Cleaned(s[2..])
                          else [s[0]] + Cleaned(s[1..])
  {
  }

  /** And these are the pieces: a space becomes an underscore, the forbidden
      characters and pairs go, every other character stays. */
  lemma CleanedPieces(c: char)
    ensures Cleaned(" ") == "_" && Cleaned("@") == "" && Cleaned("~") == ""
    ensures Cleaned(":=") == "" && Cleaned("//") == ""
    ensures c !in " @~" ==> Cleaned([c]) == [c]
  {
    assert ":="[2..] == "" && "//"[2..] == "" && " "[1..] == "" && "@"[1..] == "" && "~"[1..] == "";
    assert [c][1..] == "";
    assert PairAt(":=", 0, ':', '=') && PairAt("//", 0, '/', '/');
  }

  method AsValidTopic(topic: string) returns (result: string)
    ensures result == if IsValidTopic(Cleaned(topic)) then Cleaned(topic) else ""
  {
    var validTopic := "";
    var i := 0;
    assert Cleaned("") == "";
    hide Cleaned;
    while i < |topic|
      invariant i <= |topic|
      invariant validTopic + Cleaned(topic[i..]) == Cleaned(topic)
    {
      var c := topic[i];
      CleanedAt(topic, i, validTopic);
      if c == ' ' {
        validTopic := validTopic + "_";
      } else if c == '@' || c == '~' {
      } else if c == ':' && i + 1 < |topic| && topic[i + 1] == '=' {
        i := i + 1;
      } else if c == '/' && i + 1 < |topic| && topic[i + 1] == '/' {
        i := i + 1;
      } else {
        validTopic := validTopic + [c];
      }
      i := i + 1;
    }
    assert topic[i..] == "" && validTopic == Cleaned(topic);
    result := if IsValidTopic(validTopic) then validTopic else "";
  }

  /** The filter leaves a string alone exactly when it holds nothing to
      remove or replace. */
  lemma {:induction false} CleanedFixedIff(s: string)
    ensures |Cleaned(s)| <= |s|
    ensures Cleaned(s) == s <==>
            ' ' !in s && '@' !in s && '~' !in s && !HasPair(s, ':', '=') && !HasPair(s, '/', '/')
  {
    if s != "" {
      var t := s[1..];
      assert s == [s[0]] + t;
      CleanedFixedIff(t);
      HasPairTail(s, ':', '=');
      HasPairTail(s, '/', '/');
      if PairAt(s, 0, ':', '=') || PairAt(s, 0, '/', '/') {
        CleanedFixedIff(s[2..]);
      } else if s[0] != ' ' && s[0] != '@' && s[0] != '~' {
        assert Cleaned(s)[1..] == Cleaned(t);
      }
    }
  }

  /** AsValidTopic changes a string within the length limit exactly when it is
      not already a valid topic (the empty string stays empty). */
  lemma ValidTopicsAreFixed(s: string)
    ensures IsValidTopic(s) ==> IsValidTopic(Cleaned(s)) && Cleaned(s) == s
    ensures IsValidTopic(Cleaned(s)) && Cleaned(s) == s ==> IsValidTopic(s)
    ensures IsValidTopic(Cleaned(s)) ==> Cleaned(Cleaned(s)) == Cleaned(s)
  {
    CleanedFixedIff(s);
    CleanedFixedIff(Cleaned(s));
  }
}
