/**
 The digest walk from a source commit to an immutable image reference
 (tools/source-update/image.go), against a registry that may answer anything. Image indexes
 and content digests follow the "Image Index" and "Content Descriptors" sections of the OCI
 Image Format Specification.
 */
module Provenance {
  import opened Wrappers

  type Bytes = string

  const IMAGE_REPOSITORY := "quay.io/opendatahub/odh-mcp-lifecycle-operator"
  const SOURCE_URL := "https://github.com/opendatahub-io/mcp-lifecycle-operator"
  const MAX_CHILDREN := 128
  const SOURCE_LABELS := ["git.commit", "org.opencontainers.image.revision", "vcs-ref"]

  datatype Descriptor = Descriptor(mediaType: string, digest: string, os: string, architecture: string)
  datatype Manifest = Manifest(schemaVersion: int, mediaType: string, manifests: seq<Descriptor>,
      configMediaType: string, configDigest: string)
  datatype ImageConfig = ImageConfig(os: string, architecture: string, labels: map<string, string>)

  /** The hash, in hexadecimal, and the two JSON decoders. */
  datatype Codec = Codec(sha256: Bytes -> string, manifest: Bytes -> Option<Manifest>,
      config: Bytes -> Option<ImageConfig>)

  datatype Answer = Answer(body: Bytes, digestHeader: string) | Refused

  predicate LowerHex(c: char) { '0' <= c <= '9' || 'a' <= c <= 'f' }

  predicate IsDigest(s: string) {
    |s| == 71 && s[..7] == "sha256:" && forall k :: 7 <= k < 71 ==> LowerHex(s[k])
  }

  predicate FullSHA(s: string) {
    (|s| == 40 || |s| == 64) && forall k :: 0 <= k < |s| ==> LowerHex(s[k]) || 'A' <= s[k] <= 'F'
  }

  predicate IsIndexMediaType(m: string) {
    m == "application/vnd.oci.image.index.v1+json" || m == "application/vnd.docker.distribution.manifest.list.v2+json"
  }

  predicate IsImageMediaType(m: string) {
    m == "application/vnd.oci.image.manifest.v1+json" || m == "application/vnd.docker.distribution.manifest.v2+json"
  }

  predicate IsConfigMediaType(m: string) {
    m == "application/vnd.oci.image.config.v1+json" || m == "application/vnd.docker.container.image.v1+json"
  }

  function NormalizeArchitecture(a: string): string {
    if a == "x86_64" then "amd64" else if a == "aarch64" then "arm64" else a
  }

  function Digest(codec: Codec, body: Bytes): string { "sha256:" + codec.sha256(body) }

  function CheckedDigest(codec: Codec, body: Bytes, claimed: string): Option<string> {
    if !IsDigest(claimed) || claimed != Digest(codec, body) then None else Some(Digest(codec, body))
  }

  /** Every recognized label names the commit, at least one is there, and the repository is ours. */
  predicate LabelsVouch(labels: map<string, string>, commit: string) {
    && (forall key :: key in SOURCE_LABELS && key in labels ==> labels[key] == commit)
    && (exists key :: key in SOURCE_LABELS && key in labels)
    && "git.url" in labels && labels["git.url"] == SOURCE_URL
  }

  /**
   A digest is sixty-four lower-case hexadecimal digits behind the name of the hash; a commit is forty
   or sixty-four of either case.
   */
  lemma NamesMean(s: string)
    ensures IsDigest(s) <==> exists hex: string ::
              s == "sha256:" + hex && |hex| == 64 && forall c :: c in hex ==> c in "0123456789abcdef"
    ensures FullSHA(s) <==> (|s| == 40 || |s| == 64) && forall c :: c in s ==> c in "0123456789abcdefABCDEF"
  {
    HexDigits();
    if IsDigest(s) {
      assert s == "sha256:" + s[7..] && forall k :: 7 <= k < 71 ==> s[7..][k - 7] == s[k];
      forall c | c in s[7..] ensures c in "0123456789abcdef" {
        var k :| 0 <= k < 64 && s[7..][k] == c;
        assert LowerHex(s[k + 7]);
      }
    }
    if hex: string :| s == "sha256:" + hex && |hex| == 64 && forall c :: c in hex ==> c in "0123456789abcdef" {
      forall k | 7 <= k < 71 ensures LowerHex(s[k]) { assert s[k] == hex[k - 7] && hex[k - 7] in hex; }
    }
    if FullSHA(s) {
      forall c | c in s ensures c in "0123456789abcdefABCDEF" {
        var k :| 0 <= k < |s| && s[k] == c;
      }
    }
    if forall c :: c in s ==> c in "0123456789abcdefABCDEF" {
      forall k | 0 <= k < |s| ensures LowerHex(s[k]) || 'A' <= s[k] <= 'F' { assert s[k] in s; }
    }
  }

  lemma HexDigits()
    ensures forall c :: c in "0123456789abcdef" <==> LowerHex(c)
    ensures forall c :: c in "0123456789abcdefABCDEF" <==> LowerHex(c) || 'A' <= c <= 'F'
  {
    var lower, upper := "0123456789abcdef", "ABCDEF";
    forall c: char | LowerHex(c) ensures c in lower {
      assert lower[if c <= '9' then c as int - '0' as int else 10 + c as int - 'a' as int] == c;
    }
    forall c: char | 'A' <= c <= 'F' ensures c in upper { assert upper[c as int - 'A' as int] == c; }
    assert lower + upper == "0123456789abcdefABCDEF";
  }

  predicate Unrunnable(d: Descriptor) { d.os == "unknown" && d.architecture == "unknown" }

  /** What the registry answered for one child: its manifest and its config blob. */
  datatype ChildAnswers = ChildAnswers(manifest: Answer, config: Answer)

  /** The child's manifest and config are the bytes the index named and vouch for the commit. */
  predicate ChildVouches(codec: Codec, d: Descriptor, commit: string, seen: ChildAnswers) {
    && IsImageMediaType(d.mediaType) && IsDigest(d.digest)
    && seen.manifest.Answer? && seen.manifest.digestHeader == d.digest == Digest(codec, seen.manifest.body)
    && codec.manifest(seen.manifest.body).Some?
    && var m := codec.manifest(seen.manifest.body).value;
    && m.schemaVersion == 2 && m.mediaType == d.mediaType && IsConfigMediaType(m.configMediaType)
    && IsDigest(m.configDigest)
    && seen.config.Answer? && Digest(codec, seen.config.body) == m.configDigest
    && codec.config(seen.config.body).Some?
    && var c := codec.config(seen.config.body).value;
    && c.os == d.os && NormalizeArchitecture(c.architecture) == NormalizeArchitecture(d.architecture)
    && LabelsVouch(c.labels, commit)
  }

  /** What makes a child acceptable, spelled out on the descriptor and the two answers. */
  lemma ChildVouchesMeans(codec: Codec, d: Descriptor, commit: string, seen: ChildAnswers)
    requires seen.manifest.Answer? && seen.config.Answer?
    requires codec.manifest(seen.manifest.body).Some? && codec.config(seen.config.body).Some?
    ensures var m, c := codec.manifest(seen.manifest.body).value, codec.config(seen.config.body).value;
            ChildVouches(codec, d, commit, seen) <==>
              && (d.mediaType == "application/vnd.oci.image.manifest.v1+json" ||
                  d.mediaType == "application/vnd.docker.distribution.manifest.v2+json")
              && m.mediaType == d.mediaType && m.schemaVersion == 2
              && (m.configMediaType == "application/vnd.oci.image.config.v1+json" ||
                  m.configMediaType == "application/vnd.docker.container.image.v1+json")
              && IsDigest(d.digest) && d.digest == "sha256:" + codec.sha256(seen.manifest.body)
              && seen.manifest.digestHeader == d.digest
              && IsDigest(m.configDigest) && m.configDigest == "sha256:" + codec.sha256(seen.config.body)
              && c.os == d.os
              && (c.architecture == d.architecture
                  || (c.architecture in ["amd64", "x86_64"] && d.architecture in ["amd64", "x86_64"])
                  || (c.architecture in ["arm64", "aarch64"] && d.architecture in ["arm64", "aarch64"]))
              && ("git.commit" in c.labels ==> c.labels["git.commit"] == commit)
              && ("org.opencontainers.image.revision" in c.labels ==>
                    c.labels["org.opencontainers.image.revision"] == commit)
              && ("vcs-ref" in c.labels ==> c.labels["vcs-ref"] == commit)
              && ("git.commit" in c.labels || "org.opencontainers.image.revision" in c.labels || "vcs-ref" in c.labels)
              && "git.url" in c.labels
              && c.labels["git.url"] == "https://github.com/opendatahub-io/mcp-lifecycle-operator"
  {
    var c := codec.config(seen.config.body).value;
    LabelsMean(c.labels, commit);
    ArchitecturesMean(c.architecture, d.architecture);
  }

  lemma LabelsMean(labels: map<string, string>, commit: string)
    ensures LabelsVouch(labels, commit) <==>
              && ("git.commit" in labels ==> labels["git.commit"] == commit)
              && ("org.opencontainers.image.revision" in labels ==>
                    labels["org.opencontainers.image.revision"] == commit)
              && ("vcs-ref" in labels ==> labels["vcs-ref"] == commit)
              && ("git.commit" in labels || "org.opencontainers.image.revision" in labels || "vcs-ref" in labels)
              && "git.url" in labels
              && labels["git.url"] == "https://github.com/opendatahub-io/mcp-lifecycle-operator"
  {
    assert forall key :: key in SOURCE_LABELS <==>
           key == "git.commit" || key == "org.opencontainers.image.revision" || key == "vcs-ref";
  }

  lemma ArchitecturesMean(a: string, b: string)
    ensures NormalizeArchitecture(a) == NormalizeArchitecture(b) <==>
              || a == b
              || (a in ["amd64", "x86_64"] && b in ["amd64", "x86_64"])
              || (a in ["arm64", "aarch64"] && b in ["arm64", "aarch64"])
  {
    assert "amd64"[1] != "arm64"[1] && "x86_64"[0] != "a"[0] && "aarch64"[1] == 'a';
  }

  /** Everything one resolution was told: the index, and the answers for each child in order. */
  datatype Evidence = Evidence(index: Answer, children: seq<ChildAnswers>)

  predicate GoodIndex(codec: Codec, index: Answer) {
    && index.Answer? && IsDigest(index.digestHeader) && index.digestHeader == Digest(codec, index.body)
    && codec.manifest(index.body).Some?
    && var m := codec.manifest(index.body).value;
    && m.schemaVersion == 2 && IsIndexMediaType(m.mediaType) && 0 < |m.manifests| <= MAX_CHILDREN
  }

  /** Skipped as an attestation, or complete and vouched for. */
  predicate ChildPasses(codec: Codec, d: Descriptor, commit: string, seen: ChildAnswers) {
    Unrunnable(d) || (d.os != "" && d.architecture != "" && ChildVouches(codec, d, commit, seen))
  }

  /** One of the first `n` children is a platform that runs. */
  predicate AnyRunnable(children: seq<Descriptor>, n: int)
    requires n <= |children|
  {
    exists i :: 0 <= i < n && !Unrunnable(children[i])
  }

  /** Every child passes, and at least one is a platform that runs. */
  predicate ChildrenPass(codec: Codec, children: seq<Descriptor>, commit: string, seen: seq<ChildAnswers>)
    requires |seen| == |children|
  {
    && (forall i :: 0 <= i < |children| ==> ChildPasses(codec, children[i], commit, seen[i]))
    && AnyRunnable(children, |children|)
  }

  /** Attestations are passed over; anything else must name its platform and be vouched for. */
  lemma ChildPassesMeans(codec: Codec, d: Descriptor, commit: string, seen: ChildAnswers)
    ensures ChildPasses(codec, d, commit, seen) <==>
              if d.os == "unknown" && d.architecture == "unknown" then true
              else d.os != "" && d.architecture != "" && ChildVouches(codec, d, commit, seen)
    ensures ChildVouches(codec, d, commit, seen) ==>
              && seen.manifest.Answer? && codec.manifest(seen.manifest.body).Some?
              && seen.config.Answer? && codec.config(seen.config.body).Some?
  {}

  /** What supports a reference, spelled out on the index and its children. */
  lemma SupportsMeans(codec: Codec, commit: string, e: Evidence)
    requires e.index.Answer? && codec.manifest(e.index.body).Some?
    requires |e.children| == |codec.manifest(e.index.body).value.manifests|
    ensures var m := codec.manifest(e.index.body).value;
            Supports(codec, commit, e) <==>
              && FullSHA(commit) && IsDigest(e.index.digestHeader)
              && e.index.digestHeader == "sha256:" + codec.sha256(e.index.body)
              && m.schemaVersion == 2 && 1 <= |m.manifests| <= 128
              && (m.mediaType == "application/vnd.oci.image.index.v1+json" ||
                  m.mediaType == "application/vnd.docker.distribution.manifest.list.v2+json")
              && (exists i :: 0 <= i < |m.manifests| &&
                    !(m.manifests[i].os == "unknown" && m.manifests[i].architecture == "unknown"))
              && forall i :: 0 <= i < |m.manifests| ==> ChildPasses(codec, m.manifests[i], commit, e.children[i])
  {}

  /** The evidence supports the reference for this commit. */
  predicate Supports(codec: Codec, commit: string, e: Evidence) {
    && FullSHA(commit) && GoodIndex(codec, e.index)
    && var children := codec.manifest(e.index.body).value.manifests;
    && |e.children| == |children| && ChildrenPass(codec, children, commit, e.children)
  }

  function Reference(codec: Codec, e: Evidence): string
    requires e.index.Answer?
  {
    IMAGE_REPOSITORY + "@" + Digest(codec, e.index.body)
  }

  /** The reference is the fixed repository pinned by the digest of the index. */
  lemma ReferenceMeans(codec: Codec, e: Evidence)
    requires GoodIndex(codec, e.index)
    ensures Reference(codec, e) == "quay.io/opendatahub/odh-mcp-lifecycle-operator@" + e.index.digestHeader
  {
    assert IMAGE_REPOSITORY + "@" == "quay.io/opendatahub/odh-mcp-lifecycle-operator@";
  }

  datatype Request = Request(resource: string, answer: Answer)

  /** The registry answers as it likes; `log` is what it was asked and what it said. */
  class Registry {
    ghost var log: seq<Request>

    constructor ()
      ensures log == []
    {
      log := [];
    }

    method Get(resource: string) returns (a: Answer)
      modifies this
      ensures log == old(log) + [Request(resource, a)]
    {
      a := *;
      log := log + [Request(resource, a)];
    }
  }

  method CheckLabels(labels: map<string, string>, commit: string) returns (ok: bool)
    ensures ok <==> LabelsVouch(labels, commit)
    ensures ok <==>
              && (forall key :: key in labels && key in ["git.commit", "org.opencontainers.image.revision", "vcs-ref"]
                   ==> labels[key] == commit)
              && (exists key :: key in ["git.commit", "org.opencontainers.image.revision", "vcs-ref"] && key in labels)
              && "git.url" in labels
              && labels["git.url"] == "https://github.com/opendatahub-io/mcp-lifecycle-operator"
  {
    var hasSource := false;
    for i := 0 to |SOURCE_LABELS|
      invariant forall j :: 0 <= j < i && SOURCE_LABELS[j] in labels ==> labels[SOURCE_LABELS[j]] == commit
      invariant hasSource <==> exists j :: 0 <= j < i && SOURCE_LABELS[j] in labels
    {
      if SOURCE_LABELS[i] in labels {
        if labels[SOURCE_LABELS[i]] != commit {
          assert SOURCE_LABELS[i] in SOURCE_LABELS;
          return false;
        }
        hasSource := true;
      }
    }
    ok := hasSource && "git.url" in labels && labels["git.url"] == SOURCE_URL;
  }

  /** The answers actually asked for; a walk that stops early asks for fewer. */
  datatype Asked = Asked(manifest: Option<Answer>, config: Option<Answer>)

  /**
   `full` completes what was asked with any answers at all for the rest; a configuration counts only
   after its manifest.
   */
  predicate Completes(asked: Asked, full: ChildAnswers) {
    && (asked.manifest.Some? ==> full.manifest == asked.manifest.value)
    && (asked.manifest.Some? && asked.config.Some? ==> full.config == asked.config.value)
  }

  ghost predicate CompletesAll(asked: seq<Asked>, full: seq<ChildAnswers>) {
    |asked| <= |full| && forall i :: 0 <= i < |asked| ==> Completes(asked[i], full[i])
  }

  /** The config digest a child's manifest names. */
  function ConfigDigest(codec: Codec, manifest: Answer): string {
    if manifest.Answer? && codec.manifest(manifest.body).Some? then codec.manifest(manifest.body).value.configDigest
        else ""
  }

  /** The requests behind one child's answers: its manifest by digest, then the config blob that manifest names. */
  function Requests(codec: Codec, d: Descriptor, asked: Asked): seq<Request> {
    if asked.manifest.None? then []
    else
      [Request("manifests/" + d.digest, asked.manifest.value)]
      + (if asked.config.None? then [] else [Request("blobs/" + ConfigDigest(codec, asked.manifest.value),
          asked.config.value)])
  }

  function AllRequests(codec: Codec, children: seq<Descriptor>, asked: seq<Asked>): seq<Request>
    requires |asked| <= |children|
    decreases |asked|
  {
    if asked == [] then []
    else AllRequests(codec, children, asked[..|asked| - 1]) + Requests(codec, children[|asked| - 1], asked[|asked| - 1])
  }

  /** Accepts a child that vouches, and refuses only what no further answer could have saved. */
  method ValidatePlatformImage(registry: Registry, codec: Codec, d: Descriptor, commit: string)
    returns (ok: bool, ghost asked: Asked)
    modifies registry
    ensures registry.log == old(registry.log) + Requests(codec, d, asked)
    ensures ok ==> asked.manifest.Some? && asked.config.Some?
    ensures forall full :: Completes(asked, full) ==> (ok <==> ChildVouches(codec, d, commit, full))
  {
    ok, asked := false, Asked(None, None);
    if !IsImageMediaType(d.mediaType) || !IsDigest(d.digest) { return; }
    var manifest := registry.Get("manifests/" + d.digest);
    asked := Asked(Some(manifest), None);
    if manifest.Refused? { return; }
    if CheckedDigest(codec, manifest.body, manifest.digestHeader) != Some(d.digest) { return; }
    var decoded := codec.manifest(manifest.body);
    if decoded.None? { return; }
    var m := decoded.value;
    if m.schemaVersion != 2 || m.mediaType != d.mediaType || !IsConfigMediaType(m.configMediaType) ||
        !IsDigest(m.configDigest) {
      return;
    }
    var config := registry.Get("blobs/" + m.configDigest);
    asked := Asked(Some(manifest), Some(config));
    if config.Refused? || CheckedDigest(codec, config.body, m.configDigest).None? { return; }
    var image := codec.config(config.body);
    if image.None? || image.value.os != d.os ||
        NormalizeArchitecture(image.value.architecture) != NormalizeArchitecture(d.architecture) {
      return;
    }
    ok := CheckLabels(image.value.labels, commit);
  }

  /** The child passes on the answers it was asked for, without any more. */
  predicate PassesAsked(codec: Codec, d: Descriptor, commit: string, asked: Asked) {
    || Unrunnable(d)
    || (d.os != "" && d.architecture != "" && asked.manifest.Some? && asked.config.Some?
        && ChildVouches(codec, d, commit, ChildAnswers(asked.manifest.value, asked.config.value)))
  }

  /** No further answer makes the child pass. */
  ghost predicate Hopeless(codec: Codec, d: Descriptor, commit: string, asked: Asked) {
    forall full :: Completes(asked, full) ==> !ChildPasses(codec, d, commit, full)
  }

  /** One child's turn: skipped, refused as incomplete, or validated. */
  method CheckChild(registry: Registry, codec: Codec, d: Descriptor, commit: string)
    returns (ok: bool, ghost asked: Asked)
    modifies registry
    ensures registry.log == old(registry.log) + Requests(codec, d, asked)
    ensures if ok then PassesAsked(codec, d, commit, asked) else Hopeless(codec, d, commit, asked)
  {
    ok, asked := Unrunnable(d), Asked(None, None);
    if !ok && d.os != "" && d.architecture != "" {
      ok, asked := ValidatePlatformImage(registry, codec, d, commit);
    }
  }

  /** The log after one more child, when that child passed. */
  lemma OneMoreAsked(codec: Codec, children: seq<Descriptor>, commit: string, asked: seq<Asked>, more: Asked,
                     from: seq<Request>, to: seq<Request>)
    requires |asked| < |children| && to ==
               from + AllRequests(codec, children, asked) + Requests(codec, children[|asked|], more)
    ensures to == from + AllRequests(codec, children, asked + [more])
    ensures PassesAsked(codec, children[|asked|], commit, more) ==>
              Failures(codec, children, commit, asked + [more]) == Failures(codec, children, commit, asked)
  {
    assert (asked + [more])[..|asked|] == asked;
    var a, b := AllRequests(codec, children, asked), Requests(codec, children[|asked|], more);
    assert from + a + b == from + (a + b);
  }

  /** The walk's result is right for every completion of the answers it saw. */
  ghost predicate Decides(codec: Codec, children: seq<Descriptor>, commit: string, asked: seq<Asked>, ok: bool) {
    forall full :: CompletesAll(asked, full) && |full| == |children| ==>
        (ok <==> ChildrenPass(codec, children, commit, full))
  }

  /** How many of the children asked about do not pass. */
  function Failures(codec: Codec, children: seq<Descriptor>, commit: string, asked: seq<Asked>): nat
    requires |asked| <= |children|
    decreases |asked|
  {
    if asked == [] then 0
    else
      Failures(codec, children, commit, asked[..|asked| - 1])
      + (if PassesAsked(codec, children[|asked| - 1], commit, asked[|asked| - 1]) then 0 else 1)
  }

  lemma OneFails(codec: Codec, children: seq<Descriptor>, commit: string, asked: seq<Asked>, more: Asked)
    requires |asked| < |children| && Hopeless(codec, children[|asked|], commit, more)
    ensures Decides(codec, children, commit, asked + [more], false)
  {
    Longer(asked, more);
  }

  lemma {:induction false} EachPasses(codec: Codec, children: seq<Descriptor>, commit: string, asked: seq<Asked>,
                                      full: seq<ChildAnswers>)
    requires |asked| <= |children| && Failures(codec, children, commit, asked) == 0 && CompletesAll(asked, full)
    ensures forall i :: 0 <= i < |asked| ==> ChildPasses(codec, children[i], commit, full[i])
    decreases |asked|
  {
    if asked != [] {
      var before := asked[..|asked| - 1];
      assert forall i :: 0 <= i < |before| ==> before[i] == asked[i];
      EachPasses(codec, children, commit, before, full);
      assert Completes(asked[|asked| - 1], full[|asked| - 1]);
    }
  }

  lemma PassedThrough(codec: Codec, children: seq<Descriptor>, commit: string, asked: seq<Asked>,
                      full: seq<ChildAnswers>)
    requires |asked| == |children| == |full| && Failures(codec, children, commit, asked) == 0 &&
               CompletesAll(asked, full)
    ensures ChildrenPass(codec, children, commit, full) <==> AnyRunnable(children, |children|)
  {
    EachPasses(codec, children, commit, asked, full);
  }

  lemma AllPass(codec: Codec, children: seq<Descriptor>, commit: string, asked: seq<Asked>, ok: bool)
    requires |asked| == |children| && Failures(codec, children, commit, asked) == 0 &&
               (ok <==> AnyRunnable(children, |children|))
    ensures Decides(codec, children, commit, asked, ok)
  {
    forall full | CompletesAll(asked, full) && |full| == |children|
      ensures ok <==> ChildrenPass(codec, children, commit, full)
    {
      PassedThrough(codec, children, commit, asked, full);
    }
  }

  /** The next child's turn in the walk. */
  method CheckNext(registry: Registry, codec: Codec, children: seq<Descriptor>, commit: string, i: nat,
                   ghost from: seq<Request>, ghost asked: seq<Asked>)
    returns (ok: bool, ghost more: Asked)
    requires |asked| == i < |children| && registry.log == from + AllRequests(codec, children, asked) &&
               Failures(codec, children, commit, asked) == 0
    modifies registry
    ensures registry.log == from + AllRequests(codec, children, asked + [more])
    ensures ok ==> Failures(codec, children, commit, asked + [more]) == 0
    ensures !ok ==> Decides(codec, children, commit, asked + [more], false)
  {
    ok, more := CheckChild(registry, codec, children[i], commit);
    OneMoreAsked(codec, children, commit, asked, more, from, registry.log);
    if !ok { OneFails(codec, children, commit, asked, more); }
  }

  /** Walks the index's children and stops at the first that does not pass. */
  method CheckChildren(registry: Registry, codec: Codec, children: seq<Descriptor>, commit: string)
    returns (ok: bool, ghost asked: seq<Asked>)
    modifies registry
    ensures |asked| <= |children| && registry.log == old(registry.log) + AllRequests(codec, children, asked)
    ensures Decides(codec, children, commit, asked, ok)
    ensures ok ==> |asked| == |children| && Unsourced(codec, children, commit, registry.log) == {}
  {
    ok, asked := false, [];
    var checkedPlatforms := 0;
    for i := 0 to |children|
      invariant |asked| == i && checkedPlatforms >= 0 && !ok
      invariant registry.log == old(registry.log) + AllRequests(codec, children, asked)
      invariant Failures(codec, children, commit, asked) == 0
      invariant checkedPlatforms > 0 <==> AnyRunnable(children, i)
    {
      var passed, more := CheckNext(registry, codec, children, commit, i, old(registry.log), asked);
      asked := asked + [more];
      if !passed { return; }
      if !Unrunnable(children[i]) { checkedPlatforms := checkedPlatforms + 1; }
    }
    ok := checkedPlatforms > 0;
    AllPass(codec, children, commit, asked, ok);
    ChildrenSourced(codec, children, commit, asked, old(registry.log), registry.log);
  }

  /**
   Resolves a commit to a reference. Whatever the registry answered, success means the answers
   on its log support the reference, and refusal means no completion of them would have.
   */
  method ResolveOperandImage(registry: Registry, codec: Codec, commit: string)
    returns (reference: Option<string>, ghost index: Answer, ghost asked: seq<Asked>)
    modifies registry
    ensures |asked| <= ChildCount(codec, index)
    ensures registry.log == old(registry.log)
                            + (if FullSHA(commit) then [Request("manifests/" + commit, index)] else [])
                            + (if GoodIndex(codec, index)
                               then AllRequests(codec, codec.manifest(index.body).value.manifests, asked) else [])
    ensures forall e: Evidence ::
              e.index == index && CompletesAll(asked, e.children) && |e.children| == ChildCount(codec, index) ==>
              (reference.Some? <==> Supports(codec, commit, e))
    ensures reference.Some? ==>
              index.Answer? && |asked| == ChildCount(codec, index) &&
              reference.value == Reference(codec, Evidence(index, []))
    ensures reference.Some? ==>
              && codec.manifest(index.body).Some?
              && Unsourced(codec, codec.manifest(index.body).value.manifests, commit, registry.log) == {}
  {
    reference, index, asked := None, Refused, [];
    if !FullSHA(commit) { return; }
    var root := registry.Get("manifests/" + commit);
    index := root;
    if root.Refused? || CheckedDigest(codec, root.body, root.digestHeader).None? { return; }
    var decoded := codec.manifest(root.body);
    if decoded.None? { return; }
    var m := decoded.value;
    if m.schemaVersion != 2 || !IsIndexMediaType(m.mediaType) || |m.manifests| == 0 || |m.manifests| > MAX_CHILDREN {
      return;
    }
    var ok;
    ok, asked := CheckChildren(registry, codec, m.manifests, commit);
    if ok { reference := Some(IMAGE_REPOSITORY + "@" + Digest(codec, root.body)); }
  }

  /**
   The answers on the log that make the child acceptable: its manifest and the config that manifest names,
   each the bytes of its digest; the config is for the child's platform, and labelled with the commit and
   our repository.
   */
  ghost function Sources(codec: Codec, d: Descriptor, commit: string, log: seq<Request>): iset<ChildAnswers> {
    iset seen: ChildAnswers |
      && Request("manifests/" + d.digest, seen.manifest) in log && seen.manifest.Answer?
      && d.digest == "sha256:" + codec.sha256(seen.manifest.body) && codec.manifest(seen.manifest.body).Some?
      && var configDigest := codec.manifest(seen.manifest.body).value.configDigest;
      && Request("blobs/" + configDigest, seen.config) in log && seen.config.Answer?
      && configDigest == "sha256:" + codec.sha256(seen.config.body) && codec.config(seen.config.body).Some?
      && var image := codec.config(seen.config.body).value;
      && image.os == d.os
      && (image.architecture == d.architecture
          || (image.architecture in ["amd64", "x86_64"] && d.architecture in ["amd64", "x86_64"])
          || (image.architecture in ["arm64", "aarch64"] && d.architecture in ["arm64", "aarch64"]))
      && (forall key :: key in ["git.commit", "org.opencontainers.image.revision", "vcs-ref"] && key in image.labels ==>
           image.labels[key] == commit)
      && (exists key :: key in ["git.commit", "org.opencontainers.image.revision", "vcs-ref"] && key in image.labels)
      && "git.url" in image.labels
      && image.labels["git.url"] == "https://github.com/opendatahub-io/mcp-lifecycle-operator"
  }

  lemma ChildSourced(codec: Codec, d: Descriptor, commit: string, a: Asked, log: seq<Request>)
    requires ChildVouches(codec, d, commit, AnswersOf(a))
    requires forall r :: r in Requests(codec, d, a) ==> r in log
    ensures AnswersOf(a) in Sources(codec, d, commit, log)
  {
    var seen := AnswersOf(a);
    var image := codec.config(seen.config.body).value;
    ArchitecturesMean(image.architecture, d.architecture);
    var rs := Requests(codec, d, a);
    assert rs[0] in rs && rs[1] in rs;
  }

  /** The platforms of an index that the log does not show to be built from the commit. */
  ghost function Unsourced(codec: Codec, children: seq<Descriptor>, commit: string, log: seq<Request>): set<Descriptor>
  {
    set d | d in children && !(d.os == "unknown" && d.architecture == "unknown") &&
            Sources(codec, d, commit, log) == iset{}
  }

  lemma {:induction false} NoneFailed(codec: Codec, children: seq<Descriptor>, commit: string, asked: seq<Asked>,
                                      i: int)
    requires 0 <= i < |asked| <= |children| && Failures(codec, children, commit, asked) == 0
    ensures PassesAsked(codec, children[i], commit, asked[i])
    decreases |asked|
  {
    if i < |asked| - 1 { NoneFailed(codec, children, commit, asked[..|asked| - 1], i); }
  }

  lemma ChildrenSourced(codec: Codec, children: seq<Descriptor>, commit: string, asked: seq<Asked>,
                        from: seq<Request>, log: seq<Request>)
    requires |asked| == |children| && Failures(codec, children, commit, asked) == 0
    requires log == from + AllRequests(codec, children, asked)
    ensures Unsourced(codec, children, commit, log) == {}
  {
    forall i | 0 <= i < |children| && !Unrunnable(children[i])
      ensures Sources(codec, children[i], commit, log) != iset{}
    {
      NoneFailed(codec, children, commit, asked, i);
      AskedIsLogged(codec, children, asked, i);
      ChildSourced(codec, children[i], commit, asked[i], log);
    }
  }

  ghost function ChildCount(codec: Codec, index: Answer): nat {
    if GoodIndex(codec, index) then |codec.manifest(index.body).value.manifests| else 0
  }

  lemma Longer(asked: seq<Asked>, more: Asked)
    ensures forall full :: CompletesAll(asked + [more], full) ==>
              CompletesAll(asked, full) && Completes(more, full[|asked|])
  {}

  /** The bytes a piece of evidence rests on. */
  ghost function Bodies(e: Evidence): set<Bytes> {
    (if e.index.Answer? then {e.index.body} else {})
    + (set i | 0 <= i < |e.children| && e.children[i].manifest.Answer? :: e.children[i].manifest.body)
    + (set i | 0 <= i < |e.children| && e.children[i].config.Answer? :: e.children[i].config.body)
  }

  /** No two different bodies among those received have the same hash. */
  ghost predicate NoCollision(codec: Codec, bodies: set<Bytes>) {
    forall a, b :: a in bodies && b in bodies && codec.sha256(a) == codec.sha256(b) ==> a == b
  }

  lemma SameDigestSameBody(codec: Codec, bodies: set<Bytes>, a: Bytes, b: Bytes)
    requires NoCollision(codec, bodies) && a in bodies && b in bodies && Digest(codec, a) == Digest(codec, b)
    ensures a == b
  {
    assert Digest(codec, a)[7..] == codec.sha256(a) && Digest(codec, b)[7..] == codec.sha256(b);
  }

  /** Equal digests all the way down: a child both walks checked has the same manifest and config bytes. */
  lemma SameChildSameBytes(codec: Codec, d: Descriptor, bodies: set<Bytes>,
                           commit1: string, seen1: ChildAnswers, commit2: string, seen2: ChildAnswers)
    requires NoCollision(codec, bodies)
    requires ChildVouches(codec, d, commit1, seen1) && ChildVouches(codec, d, commit2, seen2)
    requires {seen1.manifest.body, seen1.config.body, seen2.manifest.body, seen2.config.body} <= bodies
    ensures seen1.manifest.body == seen2.manifest.body && seen1.config.body == seen2.config.body && commit1 == commit2
  {}

  /**
   The reference determines the source: two resolutions that end in the same reference, whatever
   the registry told each of them, were made for the same commit and checked the same bytes.
   */
  lemma ReferenceDeterminesSource(codec: Codec, commit1: string, e1: Evidence, commit2: string, e2: Evidence)
    requires Supports(codec, commit1, e1) && Supports(codec, commit2, e2)
    requires Reference(codec, e1) == Reference(codec, e2)
    requires NoCollision(codec, Bodies(e1) + Bodies(e2))
    ensures commit1 == commit2
    ensures e1.index.body == e2.index.body
    ensures var children := codec.manifest(e1.index.body).value.manifests;
            |e1.children| == |e2.children| == |children| &&
            forall i :: 0 <= i < |children| && !Unrunnable(children[i]) ==>
              && e1.children[i].manifest.Answer? && e2.children[i].manifest.Answer? && e1.children[i].config.Answer?
              && e2.children[i].config.Answer?
              && e1.children[i].manifest.body == e2.children[i].manifest.body
              && e1.children[i].config.body == e2.children[i].config.body
  {
    var bodies := Bodies(e1) + Bodies(e2);
    var prefix := IMAGE_REPOSITORY + "@";
    assert Reference(codec, e1)[|prefix|..] == Digest(codec, e1.index.body);
    assert Reference(codec, e2)[|prefix|..] == Digest(codec, e2.index.body);
    SameDigestSameBody(codec, bodies, e1.index.body, e2.index.body);
    var children := codec.manifest(e1.index.body).value.manifests;
    forall i | 0 <= i < |children| && !Unrunnable(children[i])
      ensures e1.children[i].manifest.Answer? && e2.children[i].manifest.Answer? && e1.children[i].config.Answer? &&
                e2.children[i].config.Answer?
      ensures e1.children[i].manifest.body == e2.children[i].manifest.body &&
                e1.children[i].config.body == e2.children[i].config.body
      ensures commit1 == commit2
    {
      assert ChildPasses(codec, children[i], commit1, e1.children[i]) &&
          ChildPasses(codec, children[i], commit2, e2.children[i]);
      SameChildSameBytes(codec, children[i], bodies, commit1, e1.children[i], commit2, e2.children[i]);
    }
  }

  // ---------------------------------------------------------------- two resolutions

  /** The bytes a registry sent. */
  ghost function Sent(log: seq<Request>): set<Bytes> {
    set i | 0 <= i < |log| && log[i].answer.Answer? :: log[i].answer.body
  }

  /** The answers received for a child; what was not asked counts as refused. */
  ghost function AnswersOf(a: Asked): ChildAnswers {
    ChildAnswers(if a.manifest.Some? then a.manifest.value else Refused,
                 if a.manifest.Some? && a.config.Some? then a.config.value else Refused)
  }

  ghost function EvidenceOf(index: Answer, asked: seq<Asked>): Evidence {
    Evidence(index, seq(|asked|, i requires 0 <= i < |asked| => AnswersOf(asked[i])))
  }

  lemma {:induction false} AskedIsLogged(codec: Codec, children: seq<Descriptor>, asked: seq<Asked>, i: int)
    requires 0 <= i < |asked| <= |children|
    ensures forall r :: r in Requests(codec, children[i], asked[i]) ==> r in AllRequests(codec, children, asked)
    decreases |asked|
  {
    if i < |asked| - 1 { AskedIsLogged(codec, children, asked[..|asked| - 1], i); }
  }

  lemma EvidenceCompletes(index: Answer, asked: seq<Asked>)
    ensures var e := EvidenceOf(index, asked);
              e.index == index && |e.children| == |asked| && CompletesAll(asked, e.children)
  {}

  lemma EvidenceWasSent(codec: Codec, commit: string, index: Answer, asked: seq<Asked>, log: seq<Request>)
    requires GoodIndex(codec, index) && |asked| == |codec.manifest(index.body).value.manifests|
    requires log == [Request("manifests/" + commit, index)] +
               AllRequests(codec, codec.manifest(index.body).value.manifests, asked)
    ensures Bodies(EvidenceOf(index, asked)) <= Sent(log)
  {
    var children, e := codec.manifest(index.body).value.manifests, EvidenceOf(index, asked);
    assert log[0].answer == index;
    forall i | 0 <= i < |asked|
      ensures e.children[i].manifest.Answer? ==> e.children[i].manifest.body in Sent(log)
      ensures e.children[i].config.Answer? ==> e.children[i].config.body in Sent(log)
    {
      AskedIsLogged(codec, children, asked, i);
      var rs := Requests(codec, children[i], asked[i]);
      if asked[i].manifest.Some? { SentFrom(log, rs[0]); }
      if asked[i].manifest.Some? && asked[i].config.Some? { SentFrom(log, rs[1]); }
    }
  }

  lemma SentFrom(log: seq<Request>, r: Request)
    requires r in log
    ensures r.answer.Answer? ==> r.answer.body in Sent(log)
  {}

  lemma FewerNoCollision(codec: Codec, some: set<Bytes>, all: set<Bytes>)
    requires NoCollision(codec, all) && some <= all
    ensures NoCollision(codec, some)
  {}

  /** Resolves against a fresh registry; what it was sent is evidence for the reference. */
  method ResolveAfresh(registry: Registry, codec: Codec, commit: string)
    returns (reference: Option<string>, ghost e: Evidence)
    requires registry.log == []
    modifies registry
    ensures reference.Some? ==>
              Supports(codec, commit, e) && reference.value == Reference(codec, e) && Bodies(e) <= Sent(registry.log)
  {
    ghost var index, asked;
    reference, index, asked := ResolveOperandImage(registry, codec, commit);
    e := EvidenceOf(index, asked);
    if reference.Some? {
      EvidenceCompletes(index, asked);
      assert Supports(codec, commit, e);
      EvidenceWasSent(codec, commit, index, asked, registry.log);
    }
  }

  /**
   Two resolutions against two registries, each answering as it likes: when both end in the same
   reference, and no two bodies the registries sent collide, they were made for the same commit.
   */
  method ResolveTwice(first: Registry, second: Registry, codec: Codec, commit1: string, commit2: string)
    returns (reference1: Option<string>, reference2: Option<string>)
    requires first != second && first.log == [] && second.log == []
    modifies first, second
    ensures reference1.Some? && reference1 == reference2 && NoCollision(codec, Sent(first.log) + Sent(second.log)) ==>
              commit1 == commit2
  {
    ghost var e1, e2;
    reference1, e1 := ResolveAfresh(first, codec, commit1);
    reference2, e2 := ResolveAfresh(second, codec, commit2);
    if reference1.Some? && reference1 == reference2 && NoCollision(codec, Sent(first.log) + Sent(second.log)) {
      FewerNoCollision(codec, Bodies(e1) + Bodies(e2), Sent(first.log) + Sent(second.log));
      ReferenceDeterminesSource(codec, commit1, e1, commit2, e2);
    }
  }
}
